/** The CSV import pipeline shared by the roster upload (event-selection) and the
    participant upload (attendance-checker): split the text on "\n", drop
    whitespace-only lines, split the first line on "," into trimmed header cells,
    require every expected column name among them, and read each data line's
    cells by the header position of each column. There is no quoting. */
module Csv {
  import opened Wrappers
  import opened Text
  import opened Seqs

  datatype ImportError =
    | NotCsvFile     // the file name does not end in ".csv"
    | TooFewLines    // fewer than two non-blank lines
    | HeaderMismatch // an expected column name is missing from the header

  /** `file.name.endsWith(".csv")`. */
  predicate IsCsvName(name: string) {
    EndsWith(name, ".csv")
  }

  /** `line.trim()` is truthy. */
  predicate NotBlank(line: string) {
    !IsBlank(line)
  }

  /** `text.split("\n").filter((line) => line.trim())`. */
  function NonBlankLines(text: string): (lines: seq<string>)
    ensures forall i :: 0 <= i < |lines| ==> NotBlank(lines[i])
  {
    Filter(Split(text, '\n'), NotBlank)
  }

  /** `line.split(",").map((v) => v.trim())`. */
  function Cells(line: string): (cells: seq<string>)
    ensures |cells| == |Split(line, ',')| >= 1
    ensures forall i :: 0 <= i < |cells| ==> cells[i] == Trim(Split(line, ',')[i])
  {
    var parts := Split(line, ',');
    seq(|parts|, i requires 0 <= i < |parts| => Trim(parts[i]))
  }

  /** `expected.every((header) => headers.includes(header))`. */
  predicate HasColumns(headers: seq<string>, expected: seq<string>) {
    forall k :: 0 <= k < |expected| ==> expected[k] in headers
  }

  /** Five pairwise different columns. */
  lemma FiveDistinct(a: string, b: string, c: string, d: string, e: string)
    requires a != b && a != c && a != d && a != e && b != c && b != d && b != e
    requires c != d && c != e && d != e
    ensures NoDup([a, b, c, d, e])
  {
  }

  /** A header that starts with distinct expected columns has them all, each
      first found at its own position. */
  lemma LeadingColumns(headers: seq<string>, expected: seq<string>)
    requires |expected| <= |headers| && headers[..|expected|] == expected && NoDup(expected)
    ensures forall k :: 0 <= k < |expected| ==> IndexOf(headers, expected[k]) == k
    ensures HasColumns(headers, expected)
  {
    forall k | 0 <= k < |expected| ensures IndexOf(headers, expected[k]) == k {
      assert headers[k] == expected[k];
      forall j | 0 <= j < k ensures headers[j] != headers[k] {
        assert headers[j] == expected[j];
      }
      IndexOfFirst(headers, k);
    }
  }

  /** `values[headers.indexOf(column)] || ""`: the cell under the first header
      cell named `column`, or "" when the row is too short or the header lacks it. */
  function Field(values: seq<string>, headers: seq<string>, column: string): (r: string)
    ensures column in headers && IndexOf(headers, column) < |values| ==> r == values[IndexOf(headers, column)]
    ensures column !in headers || IndexOf(headers, column) >= |values| ==> r == ""
  {
    var k := IndexOf(headers, column);
    if 0 <= k < |values| then values[k] else ""
  }

  datatype Table = Table(headers: seq<string>, rows: seq<seq<string>>)

  /** The cells of every line after the first, in order. */
  function DataRows(lines: seq<string>): (rows: seq<seq<string>>)
    requires |lines| >= 1
    ensures |rows| == |lines| - 1
    ensures forall i :: 0 <= i < |rows| ==> rows[i] == Cells(lines[i + 1])
  {
    seq(|lines| - 1, i requires 0 <= i < |lines| - 1 => Cells(lines[i + 1]))
  }

  /** The header check on the non-blank lines of an upload. */
  function ParseLines(lines: seq<string>, expected: seq<string>): (r: Result<Table, ImportError>)
    ensures r.Failure? <==> |lines| < 2 || !HasColumns(Cells(lines[0]), expected)
    ensures r.Failure? ==> r.error == (if |lines| < 2 then TooFewLines else HeaderMismatch)
    ensures r.Success? ==> r.value.headers == Cells(lines[0]) && HasColumns(r.value.headers, expected)
    ensures r.Success? ==> r.value.rows == DataRows(lines)
  {
    if |lines| < 2 then Failure(TooFewLines)
    else
      var headers := Cells(lines[0]);
      if !HasColumns(headers, expected) then Failure(HeaderMismatch)
      else Success(Table(headers, DataRows(lines)))
  }

  /** The all-or-nothing core of both upload handlers, after the file-name check:
      a header row and the trimmed cells of every later non-blank line. */
  function ParseTable(text: string, expected: seq<string>): (r: Result<Table, ImportError>)
  {
    ParseLines(NonBlankLines(text), expected)
  }

  // ------------------------------------------------------------ round trips

  /** A value that survives being written into a comma-separated line and read
      back: no separator of either kind, nothing for `trim()` to remove. */
  predicate CleanField(s: string) {
    Trimmed(s) && ',' !in s && '\n' !in s
  }

  /** Non-blank, newline-free lines joined by "\n" are read back unchanged. */
  lemma LinesOfJoin(lines: seq<string>)
    requires |lines| >= 1
    requires forall i :: 0 <= i < |lines| ==> '\n' !in lines[i] && NotBlank(lines[i])
    ensures NonBlankLines(Join(lines, '\n')) == lines
  {
    SplitJoin(lines, '\n');
    FilterAll(lines, NotBlank);
  }

  /** Cells written with "," are read back trimmed, except that the last one may
      itself contain commas and so spread over several cells. */
  lemma CellsOfJoinFront(fields: seq<string>)
    requires |fields| >= 1
    requires forall i :: 0 <= i < |fields| - 1 ==> ',' !in fields[i]
    ensures |Cells(Join(fields, ','))| >= |fields|
    ensures forall i :: 0 <= i < |fields| - 1 ==> Cells(Join(fields, ','))[i] == Trim(fields[i])
  {
    SplitJoinFront(fields, ',');
  }

  /** Clean cells written with "," are read back exactly. */
  lemma CellsOfJoin(fields: seq<string>)
    requires |fields| >= 1
    requires forall i :: 0 <= i < |fields| ==> CleanField(fields[i])
    ensures Cells(Join(fields, ',')) == fields
  {
    SplitJoin(fields, ',');
    forall i | 0 <= i < |fields| ensures Trim(fields[i]) == fields[i] {
      TrimmedIsFixed(fields[i]);
    }
  }

  /** A line of clean cells whose first cell is non-empty is a newline-free,
      non-blank line. */
  lemma JoinedCellsLine(fields: seq<string>)
    requires |fields| >= 1 && |fields[0]| > 0
    requires Trimmed(fields[0])
    requires forall i :: 0 <= i < |fields| ==> '\n' !in fields[i]
    ensures '\n' !in Join(fields, ',') && NotBlank(Join(fields, ','))
  {
    JoinAvoids(fields, ',', '\n');
    JoinStartsWithFirst(fields, ',');
    NotBlankWhenHeadVisible(Join(fields, ','));
  }

  /** A line of clean cells, the first non-empty, reads back as its cells. */
  lemma CleanLine(row: seq<string>)
    requires |row| >= 1 && row[0] != ""
    requires forall i :: 0 <= i < |row| ==> CleanField(row[i])
    ensures Cells(Join(row, ',')) == row
    ensures '\n' !in Join(row, ',') && NotBlank(Join(row, ','))
  {
    CellsOfJoin(row);
    JoinedCellsLine(row);
  }

  /** Text made of a header line and at least one data line, all non-blank and
      newline-free, parses to the cells of those lines. */
  lemma ParseTableOfLines(lines: seq<string>, expected: seq<string>)
    requires |lines| >= 2
    requires forall i :: 0 <= i < |lines| ==> '\n' !in lines[i] && NotBlank(lines[i])
    requires HasColumns(Cells(lines[0]), expected)
    ensures ParseTable(Join(lines, '\n'), expected) == Success(Table(Cells(lines[0]), DataRows(lines)))
  {
    LinesOfJoin(lines);
  }
}
