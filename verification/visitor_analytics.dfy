/** The visitor-data download page (`app/components/visitor-analytics.tsx`):
    the months in which some event was closed are offered newest first, and
    downloading a month writes a quoted CSV of the visitors of that month's
    closed events.

    The page fills in two fixed visitor records for every event instead of
    the event's roster; they are the parameters `first` and `second` here. */
module VisitorAnalytics {
  import opened Wrappers
  import opened Text
  import opened Seqs
  import opened Domain

  // ---------------------------------------------------------------- months

  /** `s.substring(0, 7)`: the "YYYY-MM" of a date. */
  function Prefix7(s: string): (r: string)
    ensures r <= s && |r| <= 7 && (|s| >= 7 ==> |r| == 7)
  {
    if |s| >= 7 then s[..7] else s
  }

  predicate IsClosed(e: EventInfo) {
    e.isClosed
  }

  /** The month prefixes of the closed events, in list order. */
  function ClosedPrefixes(events: seq<EventInfo>): (r: seq<string>)
    ensures |r| == |Filter(events, IsClosed)|
    ensures forall i :: 0 <= i < |r| ==> r[i] == Prefix7(Filter(events, IsClosed)[i].eventDate)
  {
    var closed := Filter(events, IsClosed);
    seq(|closed|, i requires 0 <= i < |closed| => Prefix7(closed[i].eventDate))
  }

  /** A closed event's prefix is listed. */
  lemma ClosedPrefixListed(events: seq<EventInfo>, i: nat)
    requires i < |events| && events[i].isClosed
    ensures Prefix7(events[i].eventDate) in ClosedPrefixes(events)
  {
    var closed := Filter(events, IsClosed);
    assert IsClosed(events[i]);
    var k :| 0 <= k < |closed| && closed[k] == events[i];
    assert ClosedPrefixes(events)[k] == Prefix7(events[i].eventDate);
  }

  /** A listed prefix is that of some closed event. */
  lemma ListedPrefixClosed(events: seq<EventInfo>, k: nat)
    requires k < |ClosedPrefixes(events)|
    ensures exists i :: 0 <= i < |events| && events[i].isClosed && Prefix7(events[i].eventDate) == ClosedPrefixes(events)[k]
  {
    var closed := Filter(events, IsClosed);
    assert closed[k] in events && IsClosed(closed[k]);
    var i :| 0 <= i < |events| && events[i] == closed[k];
  }

  /** A prefix is listed exactly when some closed event's date starts with it. */
  lemma ClosedPrefixesIff(events: seq<EventInfo>, m: string)
    ensures m in ClosedPrefixes(events) <==>
      exists i :: 0 <= i < |events| && events[i].isClosed && Prefix7(events[i].eventDate) == m
  {
    var r := ClosedPrefixes(events);
    if m in r {
      var k :| 0 <= k < |r| && r[k] == m;
      ListedPrefixClosed(events, k);
    }
    forall i | 0 <= i < |events| && events[i].isClosed && Prefix7(events[i].eventDate) == m
      ensures m in r
    {
      ClosedPrefixListed(events, i);
    }
  }

  /** `Array.from(new Set(s))`: first occurrences, in order. */
  function Distinct(s: seq<string>): (r: seq<string>)
    ensures NoDup(r) && forall x :: x in r <==> x in s
    decreases |s|
  {
    if |s| == 0 then []
    else
      var d := Distinct(s[..|s| - 1]);
      var x := s[|s| - 1];
      assert s == s[..|s| - 1] + [x];
      if x in d then d else d + [x]
  }

  predicate StrictlyAscending(s: seq<string>) {
    forall i, j :: 0 <= i < j < |s| ==> LexLess(s[i], s[j])
  }

  /** Places x in an ascending list after the elements below it. */
  function Insert(x: string, s: seq<string>): (r: seq<string>)
    ensures |r| == |s| + 1 && forall y :: y in r <==> y == x || y in s
    decreases |s|
  {
    if |s| == 0 then [x]
    else if LexLess(s[0], x) then [s[0]] + Insert(x, s[1..])
    else [x] + s
  }

  /** Inserting a new element keeps a list strictly ascending. */
  lemma {:induction false} InsertAscending(x: string, s: seq<string>)
    requires StrictlyAscending(s) && x !in s
    ensures StrictlyAscending(Insert(x, s))
    decreases |s|
  {
    if |s| > 0 {
      var r := Insert(x, s);
      if LexLess(s[0], x) {
        InsertAscending(x, s[1..]);
        forall j | 1 <= j < |r| ensures LexLess(r[0], r[j]) {
          var y := r[j];
          assert y in Insert(x, s[1..]);
          if y != x {
            var k :| 0 <= k < |s[1..]| && s[1..][k] == y;
            assert s[k + 1] == y;
          }
        }
      } else {
        LexLessTotal(x, s[0]);
        forall j | 1 <= j < |r| ensures LexLess(r[0], r[j]) {
          if j > 1 {
            LexLessTransitive(x, s[0], s[j - 1]);
          }
        }
      }
    }
  }

  /** `.sort()` on distinct strings: the ascending order of its elements. */
  function Sort(s: seq<string>): (r: seq<string>)
    ensures |r| == |s| && forall y :: y in r <==> y in s
    decreases |s|
  {
    if |s| == 0 then [] else Insert(s[0], Sort(s[1..]))
  }

  lemma {:induction false} SortAscending(s: seq<string>)
    requires NoDup(s)
    ensures StrictlyAscending(Sort(s))
    decreases |s|
  {
    if |s| > 0 {
      SortAscending(s[1..]);
      forall k | 0 <= k < |s[1..]| ensures s[1..][k] != s[0] {
        assert s[1..][k] == s[k + 1];
      }
      InsertAscending(s[0], Sort(s[1..]));
    }
  }

  function Reverse(s: seq<string>): (r: seq<string>)
    ensures |r| == |s| && forall i :: 0 <= i < |s| ==> r[i] == s[|s| - 1 - i]
  {
    seq(|s|, i requires 0 <= i < |s| => s[|s| - 1 - i])
  }

  /** `availableMonths`. */
  function AvailableMonths(events: seq<EventInfo>): seq<string> {
    Reverse(Sort(Distinct(ClosedPrefixes(events))))
  }

  /** The months offered are distinct, newest first, and are exactly the
      month prefixes of the closed events. */
  lemma AvailableMonthsSpec(events: seq<EventInfo>, m: string)
    ensures var r := AvailableMonths(events);
      && NoDup(r)
      && (m in r <==> exists i :: 0 <= i < |events| && events[i].isClosed && Prefix7(events[i].eventDate) == m)
    ensures forall i, j :: 0 <= i < j < |AvailableMonths(events)| ==>
      LexLess(AvailableMonths(events)[j], AvailableMonths(events)[i])
  {
    var d := Distinct(ClosedPrefixes(events));
    var s := Sort(d);
    var r := AvailableMonths(events);
    SortAscending(d);
    ClosedPrefixesIff(events, m);
    forall i, j | 0 <= i < j < |r| ensures LexLess(r[j], r[i]) && r[i] != r[j] {
      assert LexLess(s[|s| - 1 - j], s[|s| - 1 - i]);
      LexLessIrreflexive(r[i]);
    }
    assert m in r <==> m in s by {
      if m in r {
        var i :| 0 <= i < |r| && r[i] == m;
        assert s[|s| - 1 - i] == m;
      }
      if m in s {
        var k :| 0 <= k < |s| && s[k] == m;
        assert r[|s| - 1 - k] == m;
      }
    }
  }

  // ---------------------------------------------------------------- target events

  function InMonth(month: string): EventInfo -> bool {
    (e: EventInfo) => e.isClosed && StartsWith(e.eventDate, month)
  }

  /** `targetEvents`, and the events counted beside each month. */
  function TargetEvents(events: seq<EventInfo>, month: string): seq<EventInfo> {
    Filter(events, InMonth(month))
  }

  lemma TargetEventsIff(events: seq<EventInfo>, month: string, e: EventInfo)
    ensures e in TargetEvents(events, month) <==> e in events && e.isClosed && StartsWith(e.eventDate, month)
  {
    var r := TargetEvents(events, month);
    if e in r {
      var i :| 0 <= i < |r| && r[i] == e;
    }
    if e in events && e.isClosed && StartsWith(e.eventDate, month) {
      var i :| 0 <= i < |events| && events[i] == e;
    }
  }

  /** Every month offered has at least one closed event to download. */
  lemma OfferedMonthHasEvents(events: seq<EventInfo>, m: string)
    requires m in AvailableMonths(events)
    ensures |TargetEvents(events, m)| >= 1
  {
    AvailableMonthsSpec(events, m);
    var i :| 0 <= i < |events| && events[i].isClosed && Prefix7(events[i].eventDate) == m;
    TargetEventsIff(events, m, events[i]);
  }

  // ---------------------------------------------------------------- rows

  /** The visitor part of a row. */
  datatype VisitorFields = VisitorFields(
    name: string, affiliation: string, position: string, email: string, contact: string,
    isCheckedIn: bool, isOnSite: bool)

  datatype VisitorRow = VisitorRow(eventName: string, visitor: VisitorFields)

  /** `targetEvents.flatMap(event => [first, second])`, each row tagged with
      its event's name. */
  function VisitorRows(targets: seq<EventInfo>, first: VisitorFields, second: VisitorFields): (rows: seq<VisitorRow>)
    ensures |rows| == 2 * |targets|
    decreases |targets|
  {
    if |targets| == 0 then []
    else
      var e := targets[0];
      [VisitorRow(e.eventName, first), VisitorRow(e.eventName, second)] + VisitorRows(targets[1..], first, second)
  }

  /** Rows 2k and 2k + 1 are the two records of the k-th event. */
  lemma {:induction false} VisitorRowsAt(targets: seq<EventInfo>, first: VisitorFields, second: VisitorFields, k: nat)
    requires k < |targets|
    ensures var rows := VisitorRows(targets, first, second);
      rows[2 * k] == VisitorRow(targets[k].eventName, first)
      && rows[2 * k + 1] == VisitorRow(targets[k].eventName, second)
    decreases k
  {
    if k > 0 {
      VisitorRowsAt(targets[1..], first, second, k - 1);
    }
  }

  function Quote(s: string): string {
    "\"" + s + "\""
  }

  const CsvHeader := "행사명,이름,소속,직급,이메일,연락처,참석여부,비고\n"

  /** The eight fields of a row: six quoted texts, the attendance and the note. */
  function RowFields(r: VisitorRow): seq<string> {
    var v := r.visitor;
    [Quote(r.eventName), Quote(v.name), Quote(v.affiliation), Quote(v.position), Quote(v.email),
     Quote(v.contact), if v.isCheckedIn then "참석" else "미참석", if v.isOnSite then "현장등록" else ""]
  }

  function RowLine(r: VisitorRow): string {
    Join(RowFields(r), ',')
  }

  function RowLines(rows: seq<VisitorRow>): (lines: seq<string>)
    ensures |lines| == |rows| && forall i :: 0 <= i < |rows| ==> lines[i] == RowLine(rows[i])
  {
    seq(|rows|, i requires 0 <= i < |rows| => RowLine(rows[i]))
  }

  /** `csvHeader + csvRows`. */
  function Content(rows: seq<VisitorRow>): string {
    CsvHeader + Join(RowLines(rows), '\n')
  }

  predicate CommaFree(r: VisitorRow) {
    var v := r.visitor;
    ',' !in r.eventName && ',' !in v.name && ',' !in v.affiliation && ',' !in v.position
    && ',' !in v.email && ',' !in v.contact
  }

  /** A row splits back into its eight fields when its texts hold no comma:
      the first six are the quoted texts, the seventh is "참석" exactly for a
      checked-in visitor, the eighth "현장등록" for an on-site one and empty
      otherwise. */
  lemma RowLineFields(r: VisitorRow)
    requires CommaFree(r)
    ensures var cells := Split(RowLine(r), ',');
      && |cells| == 8
      && cells[0] == Quote(r.eventName) && cells[1] == Quote(r.visitor.name)
      && cells[5] == Quote(r.visitor.contact)
      && (cells[6] == "참석" <==> r.visitor.isCheckedIn)
      && (cells[7] == "현장등록" <==> r.visitor.isOnSite)
      && (!r.visitor.isOnSite ==> cells[7] == "")
  {
    var f := RowFields(r);
    forall i | 0 <= i < 8 ensures ',' !in f[i] {
    }
    SplitJoin(f, ',');
  }

  predicate LineFree(r: VisitorRow) {
    var v := r.visitor;
    '\n' !in r.eventName && '\n' !in v.name && '\n' !in v.affiliation && '\n' !in v.position
    && '\n' !in v.email && '\n' !in v.contact
  }

  /** The file is the header line and then one line per row, in order. */
  lemma ContentLines(rows: seq<VisitorRow>)
    requires |rows| >= 1
    requires forall i :: 0 <= i < |rows| ==> LineFree(rows[i])
    ensures Split(Content(rows), '\n') == [CsvHeader[..|CsvHeader| - 1]] + RowLines(rows)
  {
    var h := CsvHeader[..|CsvHeader| - 1];
    var lines := [h] + RowLines(rows);
    assert Content(rows) == Join(lines, '\n') by {
      assert CsvHeader == h + ['\n'];
      assert lines[1..] == RowLines(rows);
    }
    forall i | 0 <= i < |lines| ensures '\n' !in lines[i] {
      if i > 0 {
        var f := RowFields(rows[i - 1]);
        forall k | 0 <= k < 8 ensures '\n' !in f[k] {
        }
        JoinAvoids(f, ',', '\n');
      }
    }
    SplitJoin(lines, '\n');
  }

  // ---------------------------------------------------------------- download

  /** What `handleDownload` ends with: the status line, a browser alert if
      one is raised, and the file written if any. */
  datatype Download = Download(status: string, alert: Option<string>, file: Option<CsvFile>)
  datatype CsvFile = CsvFile(name: string, content: string)

  function HandleDownload(events: seq<EventInfo>, selectedMonth: string, status: string,
                          first: VisitorFields, second: VisitorFields): (d: Download)
    ensures selectedMonth == "" ==> d == Download(status, Some("다운로드할 월을 선택해주세요."), None)
    ensures selectedMonth != "" && TargetEvents(events, selectedMonth) == [] ==>
      d == Download("", Some(selectedMonth + "월에는 마감된 행사가 없습니다."), None)
    ensures d.file.Some? <==> selectedMonth != "" && |TargetEvents(events, selectedMonth)| >= 1
    ensures d.file.Some? ==>
      && d.status == "다운로드가 완료되었습니다." && d.alert.None?
      && d.file.value.name == "visitor_data_" + selectedMonth + ".csv"
      && d.file.value.content == Content(VisitorRows(TargetEvents(events, selectedMonth), first, second))
  {
    if selectedMonth == "" then Download(status, Some("다운로드할 월을 선택해주세요."), None)
    else
      var targets := TargetEvents(events, selectedMonth);
      if |targets| == 0 then Download("", Some(selectedMonth + "월에는 마감된 행사가 없습니다."), None)
      else
        var content := Content(VisitorRows(targets, first, second));
        Download("다운로드가 완료되었습니다.", None, Some(CsvFile("visitor_data_" + selectedMonth + ".csv", content)))
  }

  /** A month taken from the list always yields a file, with two rows per
      closed event of the month. (A closed event with an empty date would
      offer the empty month, which reads as no selection.) */
  lemma OfferedMonthDownloads(events: seq<EventInfo>, m: string, status: string,
                              first: VisitorFields, second: VisitorFields)
    requires m in AvailableMonths(events) && m != ""
    ensures var d := HandleDownload(events, m, status, first, second);
      d.file.Some? && d.file.value.content == Content(VisitorRows(TargetEvents(events, m), first, second))
    ensures |VisitorRows(TargetEvents(events, m), first, second)| == 2 * |TargetEvents(events, m)| >= 2
  {
    OfferedMonthHasEvents(events, m);
  }
}
