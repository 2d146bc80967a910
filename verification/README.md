# Event attendance dashboard — a Dafny model

This project models the logic of the event-attendance dashboard's components:

- **Check-in desk** (`event-overview.tsx`). This is the roster of one event:
  - a name search that lists visitors not yet checked in first;
  - check-in, which refuses a visitor already checked in;
  - on-site registration;
  - editing a visitor by id;
  - two kinds of cancellation: an on-site record is removed, a pre-registered record only loses its check-in;
  - closing the event;
  - the attendance report CSV and the twelve-hour time format;
  - the counters and the attendance ratio;
  - nine-per-page pagination of the checked-in visitors.
- **Event list** (`event-selection.tsx`):
  - the roster CSV upload;
  - event creation;
  - the status badge of an event;
  - the calendar's date keys and date selection.
- **Attendance checker** (`attendance-checker.tsx`): the participant CSV upload, search, attendance marking, the counters and rate, the attendance file and the backup file.
- **Sample generator** (`sample-generator-dialog.tsx`): the random participant list, with its random draws given as parameters, and the clamped count.
- **Analytics dashboard** (`analytics.tsx`): status classification, per-month buckets, total and visitor statistics, and the month filter.
- **Visitor data download** (`visitor-analytics.tsx`): the list of months with closed events, the selection of target events, and the quoted CSV.
- **Smaller pages:**
  - speaker list (`speaker-management.tsx`);
  - certificate page (`certificate-management.tsx`): uploads, deletes, the event-selection toggle and the preview fields;
  - sign-up validation (`auth/signup-dialog.tsx`);
  - inquiry form (`inquiry-dialog.tsx`).

Each component whose handlers update state is a `class`:

- its fields are the component's state;
- each handler is a `method` whose `ensures` gives the whole new state, through `Snapshot()`, in terms of the old state;
- a `Valid()` invariant states what every handler keeps, e.g. that check-in and its time stamp go together and that the current page is at least 1. On the check-in desk, distinct visitor ids are a separate predicate, `IdsDistinct()`, which every handler keeps except an on-site registration whose clock-derived id is already listed.

The data transformations are functions: CSV parsing and writing, search, counters, formatting and month lists. Lemmas prove what the dashboard relies on:

- every serialiser round-trips through its importer: the attendance report and the roster upload, the backup and the participant upload, the sample file and the participant upload;
- the counters add up;
- the pages partition the list;
- the month list is distinct and newest first;
- the e-mail check decides exactly the pattern `\S+@\S+\.\S+`.

Inputs the program takes from the browser become parameters:

- the clock: `Date.now()` as a `nat`, `new Date()` as a `DateTime`, "today" as a string;
- `Math.random()` draws;
- the answers to `confirm()`;
- chosen files, each given as its name and text;
- the account service's answer.

The modules are:

- **Support:** `Wrappers`, `Seqs`, `Text` (the JavaScript string built-ins used), `Email`, `Csv` (the import pipeline both upload handlers share) and `Domain` (visitors, events, alerts).
- **Components:** one module per component file.

## Model

All source paths are under `app/components/`.

| member | source | states |
|---|---|---|
| Email.IsEmailIff | app/components/auth/signup-dialog.tsx:50 | the scanning e-mail check holds exactly when the string contains somewhere a match of `\S+@\S+\.\S+` (the test is unanchored) |
| Email.AtFromIff | app/components/auth/signup-dialog.tsx:50 | the scan from a position finds an "@" with a match of the pattern exactly when one exists at or after that position |
| Email.EmailPattern | app/components/auth/signup-dialog.tsx:50 | the pattern `\S+@\S+\.\S+` read declaratively: a visible run, "@", a visible run, ".", a visible run, somewhere in the string; `Email.IsEmailIff` equates it with the scan |
| Email.DotFrom | app/components/auth/signup-dialog.tsx:50 | the scan for the "." after an "@"; `Email.DotFromIff`: it succeeds exactly when a match with that "@" ends at or after the scan position |
| Email.AtFrom | app/components/auth/signup-dialog.tsx:50 | the scan for the "@"; `Email.AtFromIff`: it succeeds exactly when a match starts at an "@" at or after the scan position |
| Email.IsEmail | app/components/auth/signup-dialog.tsx:50 | `emailRegex.test(email)`; `Email.IsEmailIff`: it holds exactly when the pattern matches somewhere in the string |
| Text.TrimSpec | app/components/event-selection.tsx:68 | `trim()` keeps one contiguous run of the string that starts and ends visibly and drops only whitespace around it |
| Text.BlankIffTrimEmpty | app/components/event-overview.tsx:74 | a string is whitespace-only exactly when its trim is empty |
| Text.SplitJoin | app/components/event-selection.tsx:79 | `split(c)` inverts `join(c)` on parts that do not contain `c` |
| Text.ToLower | app/components/event-overview.tsx:82 | lower-casing keeps the length and maps each ASCII capital to its small letter, leaving every other character |
| Text.ContainsIff | app/components/event-overview.tsx:82 | `includes(q)` holds exactly when `q` occurs at some position |
| Text.IndexOf | app/components/event-selection.tsx:82 | `indexOf` gives the first position holding the value, or -1 exactly when it is absent |
| Text.NatToString | app/components/event-selection.tsx:126 | `String(n)` is a non-empty run of digits, one digit exactly for n below 10 |
| Text.NatToStringInjective | app/components/event-selection.tsx:126 | different clock readings give different `toString()` ids |
| Text.DigitsOfNatToString | app/components/event-overview.tsx:62 | `String(n)` reads back as n |
| Text.Pad2Value | app/components/event-overview.tsx:62 | `padStart(2, "0")` keeps the value of the number |
| Text.Pad2Injective | app/components/event-overview.tsx:62 | different numbers pad to different strings |
| Text.ParseIntPad2 | app/components/analytics.tsx:47 | `parseInt` reads a padded month back up to the next non-digit |
| Text.LexLessTotal | app/components/event-selection.tsx:172 | string `<` is total on different strings |
| Text.LexLessTransitive | app/components/visitor-analytics.tsx:22 | string `<` is transitive |
| Text.LexLessIrreflexive | app/components/visitor-analytics.tsx:22 | no string is below itself |
| Text.TrimStart | app/components/analytics.tsx:47 | the leading-whitespace skip of `parseInt`; `Text.TrimStartSpec`: the result is a suffix, starts visibly, and only whitespace was dropped |
| Text.TrimEnd | app/components/event-selection.tsx:68 | the trailing half of `trim()`; `Text.TrimEndSpec`: the result is a prefix, ends visibly, and only whitespace was dropped |
| Text.Trim | app/components/event-selection.tsx:68 | `trim()`; `Text.TrimSpec` states what is kept and dropped, `Text.TrimmedIsFixed` that a trimmed string is unchanged, `Text.BlankIffTrimEmpty` when it is empty |
| Text.IsBlank | app/components/event-overview.tsx:74 | `!s.trim()`, whitespace only; `Text.BlankIffTrimEmpty`: blank exactly when the trim is empty |
| Text.Split | app/components/event-selection.tsx:61 | `split(c)` gives at least one part; `Text.SplitJoin` and `Text.SplitJoinFront`: it inverts `join(c)` on parts without `c` |
| Text.Join | app/components/event-overview.tsx:214 | `join(c)`; `Text.SplitJoin` inverts it, `Text.JoinAvoids`: a character in no part and not the separator is not in the result, `Text.JoinStartsWithFirst`: the first part is a prefix |
| Text.Contains | app/components/event-overview.tsx:82 | `includes(q)`; `Text.ContainsIff`: it holds exactly when q occurs at some position |
| Text.StartsWith | app/components/visitor-analytics.tsx:35 | `startsWith(prefix)`; `VisitorAnalytics.TargetEventsIff` selects events by it |
| Text.EndsWith | app/components/event-selection.tsx:53 | `endsWith(suffix)`; `Attendance.ImportParticipantsFails` and `EventSelection.ImportRosterFails`: a name without ".csv" at the end is refused |
| Text.DigitsValue | app/components/event-overview.tsx:62 | the decimal value of a digit string; `Text.DigitsOfNatToString` and `Text.Pad2Value`: it reads back `String(n)` and its padded form as n |
| Text.ParseInt | app/components/analytics.tsx:47 | `Number.parseInt(s, 10)`, None for NaN; `Text.ParseIntDigits`: it reads a digit string up to the first non-digit, `Text.ParseIntPad2`: it reads back a padded month |
| Text.LexLess | app/components/visitor-analytics.tsx:22 | string `<`; `Text.LexLessIrreflexive`, `Text.LexLessTransitive` and `Text.LexLessTotal`: a strict total order |
| Csv.Cells | app/components/event-selection.tsx:68 | one cell per comma-separated part, each the part trimmed |
| Csv.NonBlankLines | app/components/event-selection.tsx:61 | `split("\n").filter(line => line.trim())` keeps only non-blank lines |
| Csv.DataRows | app/components/event-selection.tsx:76 | one row of trimmed cells for each line after the header, in order |
| Csv.Field | app/components/event-selection.tsx:82-86 | the cell under the first header position of the column, or "" when the header lacks the column or the row is too short |
| Csv.ParseLines | app/components/event-selection.tsx:61-74 | the lines are refused exactly when there are fewer than two (TooFewLines) or the trimmed header misses a required column (HeaderMismatch); otherwise the header's cells and the trimmed cells of every later line, in order |
| Csv.LinesOfJoin | app/components/event-selection.tsx:61 | non-blank, newline-free lines joined by "\n" are read back unchanged |
| Csv.CellsOfJoin | app/components/event-selection.tsx:79 | clean cells joined by "," are read back exactly |
| Csv.CellsOfJoinFront | app/components/event-selection.tsx:79 | cells joined by "," are read back trimmed, except that commas in the last one spread it over several cells |
| Csv.ParseTableOfLines | app/components/event-selection.tsx:61-79 | a header line and data lines, all non-blank and newline-free, parse to the cells of those lines |
| Csv.IsCsvName | app/components/event-selection.tsx:53 | `file.name.endsWith(".csv")`; both import lemmas (`EventSelection.ImportRosterFails`, `Attendance.ImportParticipantsFails`) give the not-a-CSV refusal exactly when it fails |
| Csv.NotBlank | app/components/event-selection.tsx:61 | `line.trim()` is truthy; `Csv.NonBlankLines` keeps exactly such lines |
| Csv.HasColumns | app/components/event-selection.tsx:71 | `expectedHeaders.every((h) => headers.includes(h))`; `Csv.LeadingColumns`: a header that starts with the expected columns has them, each at its own position |
| Csv.ParseTable | app/components/event-selection.tsx:61-79 | the shared import pipeline up to the data rows; `Csv.ParseTableOfLines`: on non-blank, newline-free lines with the expected header it returns that header and the remaining lines split into cells |
| Csv.CleanField | app/components/event-selection.tsx:79 | a value that survives `join(",")` then `split(",").map(trim)`; `Csv.CleanLine`: a row of such values with a non-empty first one is read back unchanged |
| EventOverview.DisplayHour | app/components/event-overview.tsx:68 | `hours % 12 \|\| 12` lies in 1..12 and agrees with the hour modulo 12 |
| EventOverview.FormatDateTime | app/components/event-overview.tsx:60-70 | the formatted time starts and ends with a digit, so trimming leaves it whole |
| EventOverview.FormatDateTimeFields | app/components/event-overview.tsx:60-70 | the time reads as date, meridiem and clock; the date splits into year and padded month + 1 and day; the clock splits into padded twelve-hour hour, minutes and seconds |
| EventOverview.HourFromDisplay | app/components/event-overview.tsx:67-68 | "오후" is shown exactly from 12 o'clock on, and the meridiem with the twelve-hour display gives back the hour |
| EventOverview.FormatDateTimeInjective | app/components/event-overview.tsx:60-71 | different valid times are never formatted alike |
| EventOverview.FormatDateTimeIsClean | app/components/event-overview.tsx:212 | the formatted time has no comma or line break and nothing to trim, so it survives the report's CSV |
| EventOverview.SearchSound | app/components/event-overview.tsx:80-94 | every search result is on the roster and its lower-cased name contains the lower-cased query |
| EventOverview.SearchComplete | app/components/event-overview.tsx:80-94 | every matching visitor is among the results |
| EventOverview.SearchPendingFirst | app/components/event-overview.tsx:80-94 | visitors not yet checked in come before those already checked in |
| EventOverview.SearchEmptyIff | app/components/event-overview.tsx:89 | the search is empty exactly when no name on the roster matches |
| EventOverview.SearchStep | app/components/event-overview.tsx:73-95 | a whitespace-only query is refused; no match opens the on-site form with the trimmed, non-empty query; otherwise the non-empty results |
| EventOverview.MarkCheckedIn | app/components/event-overview.tsx:111-113 | records with the id become checked in at `now` with nothing else changed; every other record is unchanged; ids and well-formedness are kept |
| EventOverview.CheckInRaisesCount | app/components/event-overview.tsx:111-114 | with distinct ids, checking in a visitor not yet checked in raises the checked-in count by one |
| EventOverview.ReplaceById | app/components/event-overview.tsx:175 | each record with the edited id is replaced by the edit, the others kept; length, ids and well-formedness are kept |
| EventOverview.ReplaceByIdTouchesOne | app/components/event-overview.tsx:175 | with distinct ids an edit replaces one position only |
| EventOverview.RemoveById | app/components/event-overview.tsx:186 | the result holds exactly the roster's records with another id |
| EventOverview.RemoveByIdDropsOne | app/components/event-overview.tsx:186 | with distinct ids, removing a listed visitor shortens the roster by one |
| EventOverview.ResetById | app/components/event-overview.tsx:190-192 | records with the id lose their check-in and its time with nothing else changed; the length and the other records stay |
| EventOverview.WithFormField | app/components/event-overview.tsx:623-686 | an on-site input or category button changes exactly its field |
| EventOverview.WithVisitorField | app/components/event-overview.tsx:727-797 | an edit input never changes the id, the on-site flag or the check-in state and time, and keeps the record well-formed |
| EventOverview.NewOnSiteVisitor | app/components/event-overview.tsx:135-146 | the new record carries the form's five fields, is on-site and checked in at `now`, has id "onsite-" plus the clock, and its category defaults to "일반" |
| EventOverview.ReportLines | app/components/event-overview.tsx:210-213 | one line per visitor, in roster order |
| EventOverview.ReportHeaderCells | app/components/event-overview.tsx:209 | the header reads back as its eight column names |
| EventOverview.ReportLinesSplit | app/components/event-overview.tsx:208-214 | without line breaks in the fields, the report is the header followed by exactly one line per visitor, in order |
| EventOverview.ReportLineCells | app/components/event-overview.tsx:212 | a report line reads back with the five contact fields trimmed, "참석" exactly when checked in, and an empty time exactly when there is none |
| EventOverview.ReportLineFields | app/components/event-overview.tsx:212 | a report line reads back with the five contact fields trimmed, then the attendance label and the check-in time exactly |
| EventOverview.AttendanceLabelClean | app/components/event-overview.tsx:212 | the attendance cell is clean and is "참석" exactly when checked in |
| EventOverview.CheckedInTextClean | app/components/event-overview.tsx:212 | the time cell is clean and is empty exactly when there is no check-in time |
| EventOverview.ComputeStats | app/components/event-overview.tsx:227-232 | the total is the roster's length and bounds the other counts |
| EventOverview.StatsConsistent | app/components/event-overview.tsx:227-232 | on a well-formed roster, checked-in pre-registered visitors plus on-site registrations equal everyone checked in, which is at most the total |
| EventOverview.AttendanceRatio | app/components/event-overview.tsx:236 | both shares are 0 while nobody is checked in |
| EventOverview.RatioBounds | app/components/event-overview.tsx:235-241 | on a well-formed roster both shares are percentages, 0 for an empty group and 100 for a group that is everyone checked in |
| EventOverview.TotalPages | app/components/event-overview.tsx:49 | `ceil(n / 9)`: enough pages for n, with no empty last page, and 0 exactly for an empty list |
| EventOverview.Page | app/components/event-overview.tsx:50-52 | a page holds at most 9 visitors; what it holds is stated by `EventOverview.PagesUpToIsPrefix`, `EventOverview.PagesPartition` and `EventOverview.PagesNonEmpty` |
| EventOverview.PagesUpToIsPrefix | app/components/event-overview.tsx:47-52 | the first k pages, concatenated, are the list's first `9 * k` elements |
| EventOverview.PagesPartition | app/components/event-overview.tsx:47-52 | pages 1 to totalPages show every checked-in visitor once, in order |
| EventOverview.PagesNonEmpty | app/components/event-overview.tsx:49-52 | every page from 1 to totalPages has someone on it |
| EventOverview.PrevPage | app/components/event-overview.tsx:565 | the previous page is at least 1, one less when possible |
| EventOverview.NextPage | app/components/event-overview.tsx:588 | the next page is at most totalPages, one more when possible |
| EventOverview.Overview.constructor | app/components/event-overview.tsx:37-45 | the initial state with page 1, satisfying the invariant |
| EventOverview.Overview.SetSearchName | app/components/event-overview.tsx:418 | only the query changes |
| EventOverview.Overview.HandleSearch | app/components/event-overview.tsx:73-96 | the state after the search outcome: a blank query only raises the prompt, no match opens the on-site form, otherwise the results are set |
| EventOverview.Overview.ShowOutcome | app/components/event-overview.tsx:74-95 | each outcome's state change, keeping the invariant |
| EventOverview.Overview.CheckIn | app/components/event-overview.tsx:105-121 | a visitor already checked in only raises the error; otherwise the roster is marked, the query and results are cleared, and the success message names the visitor; distinct ids stay distinct |
| EventOverview.Overview.SetOnSiteField | app/components/event-overview.tsx:623-686 | only the on-site form changes, in one field |
| EventOverview.Overview.RegisterOnSite | app/components/event-overview.tsx:123-154 | an incomplete form only raises the error; otherwise exactly one new checked-in on-site record is appended, the form and search are reset; distinct ids stay distinct when no listed visitor already has the new id `onsite-<clock>`, and become non-distinct when one does |
| EventOverview.Overview.EditVisitor | app/components/event-overview.tsx:156-159 | the edit dialog opens on the visitor, with the category defaulting to "일반" |
| EventOverview.Overview.SetEditingField | app/components/event-overview.tsx:727-797 | only the record being edited changes, in one field |
| EventOverview.Overview.UpdateVisitor | app/components/event-overview.tsx:161-180 | nothing without a record being edited; an incomplete record only raises the error; otherwise the record with its id is replaced and the dialog closes; distinct ids stay distinct |
| EventOverview.Overview.DeleteVisitor | app/components/event-overview.tsx:182-197 | a declined confirmation changes nothing; an on-site record is removed; a pre-registered record only has its check-in reset; requires distinct ids and keeps them distinct |
| EventOverview.Overview.CloseEvent | app/components/event-overview.tsx:199-205 | a confirmed close marks the event closed and raises the message; a declined one changes nothing |
| EventOverview.Overview.GoToPreviousPage | app/components/event-overview.tsx:565 | the page becomes `max(page - 1, 1)` |
| EventOverview.Overview.GoToNextPage | app/components/event-overview.tsx:588 | the page becomes `min(page + 1, totalPages)` and stays within 1..totalPages |
| EventOverview.Overview.GoToPage | app/components/event-overview.tsx:577 | the page becomes the number clicked |
| EventOverview.Overview.SetShowOnSiteModal | app/components/event-overview.tsx:695 | only the on-site dialog's visibility changes |
| EventOverview.Overview.SetShowEditModal | app/components/event-overview.tsx:807 | only the edit dialog's visibility changes |
| EventOverview.Meridiem | app/components/event-overview.tsx:66 | "오후" from hour 12 on, else "오전"; `EventOverview.FormatDateTimeFields` places it as the second space-separated field and `EventOverview.HourFromDisplay` recovers the hour from it and the displayed hour |
| EventOverview.DatePart | app/components/event-overview.tsx:60-62 | year, padded month and padded day joined by "-"; `EventOverview.FormatDateTimeFields` splits it back into those three, `EventOverview.DatePartAvoids`: it has no comma and no newline |
| EventOverview.ClockPart | app/components/event-overview.tsx:63-69 | padded twelve-hour hour, minutes and seconds joined by ":"; `EventOverview.FormatDateTimeFields` splits it back, `EventOverview.ClockPartAvoids`: no comma, no newline |
| EventOverview.NameMatches | app/components/event-overview.tsx:82 | the case-insensitive name test of the search; `EventOverview.SearchSound` and `EventOverview.SearchComplete` select by it |
| EventOverview.SearchResults | app/components/event-overview.tsx:80-94 | the listed search results; stated by `EventOverview.SearchSound`, `EventOverview.SearchComplete`, `EventOverview.SearchResultsOrder`, `EventOverview.SearchExactlyOnce`, `EventOverview.SearchPendingFirst` and `EventOverview.SearchEmptyIff` |
| EventOverview.SearchResultsOrder | app/components/event-overview.tsx:80-94 | the results are the roster filtered once by "not checked in and matching" followed by the roster filtered by "checked in and matching", so each group keeps roster order |
| EventOverview.SearchExactlyOnce | app/components/event-overview.tsx:80-94 | the results hold each matching roster entry exactly as often as the roster does, and nothing else: a permutation of the matching visitors |
| EventOverview.FormComplete | app/components/event-overview.tsx:124-133 | all five on-site fields non-empty; `EventOverview.Overview.RegisterOnSite` registers exactly when it holds |
| EventOverview.VisitorComplete | app/components/event-overview.tsx:164-173 | all five fields of the edited record non-empty; `EventOverview.Overview.UpdateVisitor` saves exactly when it holds |
| EventOverview.OnSiteId | app/components/event-overview.tsx:136 | `onsite-${Date.now()}`; `EventOverview.NewOnSiteVisitor` gives the new record this id, and on a complete form `EventOverview.Overview.RegisterOnSite` keeps ids distinct exactly when no listed visitor has it |
| EventOverview.AttendanceLabel | app/components/event-overview.tsx:212 | "참석" for a checked-in visitor, else "미참석"; `EventOverview.AttendanceLabelClean`: a clean CSV field, `EventOverview.ReportLineFields`: it is the sixth cell |
| EventOverview.CheckedInText | app/components/event-overview.tsx:212 | the formatted check-in time, or "" when there is none; `EventOverview.CheckedInTextClean`: a clean CSV field, `EventOverview.ReportLineFields`: it is the seventh cell |
| EventOverview.ReportLine | app/components/event-overview.tsx:212 | one report row; `EventOverview.ReportLineFields`: the visitor's fields read back from its cells, `EventOverview.ReportLineAvoids`: no newline when no field has one |
| EventOverview.Report | app/components/event-overview.tsx:208-214 | `downloadAttendanceReport`'s text, without the byte-order mark; `EventOverview.ReportLinesSplit`: split at newlines it is the header followed by one line per visitor |
| EventOverview.RoundedPercent | app/components/event-overview.tsx:238-239 | `Math.round((part / whole) * 100)`; `Attendance.RoundedPercentBounds`: at most 100 for a part of the whole, 0 for none, 100 for all |
| EventOverview.PagesUpTo | app/components/event-overview.tsx:50-52 | pages 1 to k laid end to end; `EventOverview.PagesUpToIsPrefix`: the first 9k entries, `EventOverview.PagesPartition`: all pages give the whole list |
| EventOverview.AfterSearch | app/components/event-overview.tsx:74-95 | the state after each search outcome: an error banner, the pre-filled on-site form, or the results; `EventOverview.Overview.ShowOutcome` ends in it |
| EventOverview.Overview.CheckedInVisitors | app/components/event-overview.tsx:48 | the checked-in visitors, in roster order; the page lemmas and `EventOverview.Overview.GoToNextPage` work on this list |
| EventSelection.RowVisitors | app/components/event-selection.tsx:76-90 | one visitor per data line, in order, built from that line's cells |
| EventSelection.ImportRosterFails | app/components/event-selection.tsx:53-74 | the upload is refused for a non-".csv" name, for fewer than two non-blank lines, or for a missing column, each exactly in its case |
| EventSelection.RowIdsDistinct | app/components/event-selection.tsx:81 | the ids "csv-0", "csv-1", ... are pairwise distinct |
| EventSelection.TableVisitorsFresh | app/components/event-selection.tsx:76-91 | the parsed visitors are named, not checked in, not on-site, with distinct ids, and no more than the data lines |
| EventSelection.ParsedRosterFresh | app/components/event-selection.tsx:61-91 | every successful upload is such a fresh roster, no longer than its data lines |
| EventSelection.TableVisitorsRows | app/components/event-selection.tsx:76-91 | every data line with a non-empty name becomes a visitor, and every visitor comes from such a line |
| EventSelection.RosterColumnsAt | app/components/event-selection.tsx:69 | in a header that lists the five columns first, each column is found at its own position |
| EventSelection.RosterRowVisitor | app/components/event-selection.tsx:79-86 | a row under such a header becomes the visitor of its five cells |
| EventSelection.TemplateRowsClean | app/components/event-selection.tsx:102 | the template's header and sample rows are clean CSV cells |
| EventSelection.ThreeLineTable | app/components/event-selection.tsx:61-79 | a header line and two lines of clean cells parse to exactly those cells |
| EventSelection.TwoRowRoster | app/components/event-selection.tsx:61-91 | such a file parses to two visitors carrying the two names |
| EventSelection.TemplateParses | app/components/event-selection.tsx:101-102 | the downloadable template uploads as exactly its two sample visitors, 홍길동 and 김영희 |
| EventSelection.ReportHeaderLine | app/components/event-overview.tsx:209 | the report's header is one non-blank line whose first five cells are the roster columns |
| EventSelection.ReportLineSafe | app/components/event-overview.tsx:212 | a report line of an exportable visitor is one non-blank line |
| EventSelection.ReportRowVisitor | app/components/event-selection.tsx:79-86 | the visitor read back from a report line keeps the five contact fields |
| EventSelection.ReimportReport | app/components/event-selection.tsx:61-91 | uploading the attendance report as a roster gives back every visitor's five contact fields, in roster order |
| EventSelection.ReportLinesSafe | app/components/event-overview.tsx:208-213 | every line of the report is a non-blank line without a line break |
| EventSelection.ReimportLines | app/components/event-selection.tsx:61-91 | the same holds for any header line that reads as the report's columns |
| EventSelection.ReportRowsVisitors | app/components/event-selection.tsx:76-91 | the report's data rows, read under its header, are its visitors in order |
| EventSelection.GetEventStatus | app/components/event-selection.tsx:166-174 | the badge colour matches the status |
| EventSelection.EventStatusCases | app/components/event-selection.tsx:166-174 | a closed event shows "마감" whatever its date; an open one is in progress on its day, upcoming before it and finished ("종료") after it, in string order |
| EventSelection.FormatDate | app/components/event-selection.tsx:185-187 | the key starts with a digit |
| EventSelection.FormatDateFields | app/components/event-selection.tsx:185-187 | the key splits on "-" into the year and the padded month + 1 and day |
| EventSelection.FormatDateInjective | app/components/event-selection.tsx:185-187 | different calendar days get different keys |
| EventSelection.EventsForDateIff | app/components/event-selection.tsx:189-191 | a calendar cell lists exactly the events of its day |
| EventSelection.ToggleDate | app/components/event-selection.tsx:206 | clicking selects the day exactly when it was not selected, and clears the selection otherwise |
| EventSelection.ToggleDateTwice | app/components/event-selection.tsx:206 | clicking the same day twice restores a selection that was that day or empty |
| EventSelection.NewEvent | app/components/event-selection.tsx:125-136 | the new event carries the form's fields and the clock's id, and is open |
| EventSelection.UploadAlert | app/components/event-selection.tsx:54-94 | success raises a success message and every refusal an error |
| EventSelection.EventSelectionPage.constructor | app/components/event-selection.tsx:36-41 | the initial state with no upload and no selection |
| EventSelection.EventSelectionPage.HandleFileUpload | app/components/event-selection.tsx:49-98 | no file changes nothing; a refused file only raises its error; an accepted one replaces the uploaded roster |
| EventSelection.EventSelectionPage.ShowUpload | app/components/event-selection.tsx:93-94 | the state after an upload outcome, keeping fresh rosters |
| EventSelection.EventSelectionPage.HandleShowCreateModal | app/components/event-selection.tsx:155-164 | the form starts with the default manager and the selected calendar day; the upload is cleared and the dialog opens |
| EventSelection.EventSelectionPage.HandleCreateEvent | app/components/event-selection.tsx:114-153 | a missing manager, date or name, or an empty upload, only raises its prompt; otherwise exactly one open event is appended, the roster is handed up, and the dialog is reset |
| EventSelection.EventSelectionPage.HandleDateClick | app/components/event-selection.tsx:205-207 | only the selected day changes, toggled |
| EventSelection.EventSelectionPage.SetForm | app/components/event-selection.tsx:456-522 | only the creation form changes |
| EventSelection.EventSelectionPage.SetShowCreateModal | app/components/event-selection.tsx:567 | only the dialog's visibility changes |
| EventSelection.RowVisitor | app/components/event-selection.tsx:79-90 | one data row as a visitor; `EventSelection.RosterRowVisitor`: on the roster header it takes each column's cell, not checked in, not on site |
| EventSelection.TableVisitors | app/components/event-selection.tsx:76-91 | the rows as visitors, nameless rows dropped; `EventSelection.TableVisitorsRows`: every result comes from a row and every named row is kept, `EventSelection.TableVisitorsFresh`: fresh visitors with distinct ids |
| EventSelection.ParseVisitors | app/components/event-selection.tsx:61-91 | the roster file's text as visitors; `EventSelection.ParsedRosterFresh`: fresh, distinct, at most one per data line, `EventSelection.ReimportReport`: it reads back the attendance report |
| EventSelection.ImportRoster | app/components/event-selection.tsx:49-91 | the upload handler's result; `EventSelection.ImportRosterFails`: each refusal exactly when its condition holds |
| EventSelection.EventsForDate | app/components/event-selection.tsx:189-191 | `getEventsForDate`; `EventSelection.EventsForDateIff`: exactly the events on that date |
| EventSelection.EventFormComplete | app/components/event-selection.tsx:115 | manager, date and name filled in; `EventSelection.EventSelectionPage.HandleCreateEvent` creates an event only when it holds |
| EventSelection.AfterUpload | app/components/event-selection.tsx:93-94 | the page state after an upload: the roster kept on success, the matching banner in every case; `EventSelection.EventSelectionPage.ShowUpload` ends in it |
| Attendance.RowParticipants | app/components/attendance-checker.tsx:76-88 | one participant per data line, in order |
| Attendance.ImportParticipantsFails | app/components/attendance-checker.tsx:53-74 | the upload is refused for a non-".csv" name, for fewer than two non-blank lines, or for a missing column, each exactly in its case |
| Attendance.ParsedParticipantsFresh | app/components/attendance-checker.tsx:76-91 | every successful upload is named, not attended and consistent; it is no longer than the data lines, and each participant comes from a data line |
| Attendance.ParticipantColumnsAt | app/components/attendance-checker.tsx:69 | in a header that lists the five columns first, each column is found at its own position |
| Attendance.RowLines | app/components/attendance-checker.tsx:155 | one line per row, in order |
| Attendance.RowLinesAppend | app/components/attendance-checker.tsx:155 | one more row gives one more line |
| Attendance.FromRow | app/components/attendance-checker.tsx:80-87 | the participant of a row carries its five fields and is not attended |
| Attendance.FromRows | app/components/attendance-checker.tsx:76-88 | one fresh participant per row, in order |
| Attendance.ParseCleanLines | app/components/attendance-checker.tsx:61-91 | text made of the required header and clean lines parses to exactly those rows' participants |
| Attendance.CleanRowsParticipants | app/components/attendance-checker.tsx:76-91 | clean rows under the header map to their own participants, none dropped |
| Attendance.MatchingFrom | app/components/attendance-checker.tsx:105 | increasing positions holding exactly the matching participants |
| Attendance.MatchingFromViews | app/components/attendance-checker.tsx:105 | the participants at those positions are `participants.filter(...)` |
| Attendance.MatchingViews | app/components/attendance-checker.tsx:105 | the search shows the matching participants in list order |
| Attendance.SearchStep | app/components/attendance-checker.tsx:99-113 | a query is blank exactly when whitespace-only; there is no match exactly when no name matches; otherwise the outcome lists the matching positions, and there is at least one |
| Attendance.MarkAttended | app/components/attendance-checker.tsx:122 | the participant becomes attended at `now`, consistent, with the five fields kept |
| Attendance.MarkRaisesCount | app/components/attendance-checker.tsx:122 | marking an absent participant raises the attended count by one |
| Attendance.CountsAddUp | app/components/attendance-checker.tsx:370 | attended and absent participants make up the list, so `totalCount - attendedCount` counts the absent |
| Attendance.AttendanceRate | app/components/attendance-checker.tsx:375 | 0 for an empty list and for nobody attended, 100 when all attended, never above 100 |
| Attendance.RoundedPercentBounds | app/components/attendance-checker.tsx:375 | the rounded percentage of a part of a positive whole lies in 0..100, with both ends reached |
| Attendance.AttendanceLines | app/components/attendance-checker.tsx:133-136 | one line per participant, in order, of its seven fields |
| Attendance.AttendanceFileLines | app/components/attendance-checker.tsx:131-137 | the attendance file is the header and one line per participant, attended or not, in order |
| Attendance.AttendanceLineCells | app/components/attendance-checker.tsx:135 | a line reads back with the five fields trimmed, "출석" exactly when attended, and the attendance time or "" |
| Attendance.BackupRows | app/components/attendance-checker.tsx:155 | one backup row per participant, in order |
| Attendance.BackupHeaderLine | app/components/attendance-checker.tsx:154 | the backup's header is exactly the header the upload requires |
| Attendance.Reset | app/components/attendance-checker.tsx:86 | a participant as an upload reads it: not attended, no time |
| Attendance.ResetAll | app/components/attendance-checker.tsx:86 | every participant, in order, with attendance reset |
| Attendance.ReimportBackup | app/components/attendance-checker.tsx:152-156 | uploading the backup of a non-empty list whose participants all have a non-empty name and five fields that are trimmed and hold no comma and no line break gives back every participant, in order, with attendance reset |
| Attendance.EmptyBackupRefused | app/components/attendance-checker.tsx:153-156 | the backup of an empty list is only a header and is refused |
| Attendance.UploadAlert | app/components/attendance-checker.tsx:54-93 | success raises a success message and every refusal an error |
| Attendance.AttendanceChecker.constructor | app/components/attendance-checker.tsx:37-41 | the empty, not-uploaded state |
| Attendance.AttendanceChecker.SetSearchName | app/components/attendance-checker.tsx:266 | only the query changes |
| Attendance.AttendanceChecker.HandleFileUpload | app/components/attendance-checker.tsx:49-97 | no file changes nothing; a refused file only raises its error; an accepted one replaces the whole list and sets the upload flag |
| Attendance.AttendanceChecker.ShowUpload | app/components/attendance-checker.tsx:91-93 | the state after an upload outcome, keeping the invariant |
| Attendance.AttendanceChecker.HandleSearch | app/components/attendance-checker.tsx:99-113 | a blank query clears the results silently; no match clears them with the info message; otherwise the matching positions |
| Attendance.AttendanceChecker.ShowOutcome | app/components/attendance-checker.tsx:100-112 | each search outcome's state change |
| Attendance.AttendanceChecker.HandleAttendanceCheck | app/components/attendance-checker.tsx:115-127 | an attended participant only raises the error; otherwise exactly that position is marked and the attended count rises by one |
| Attendance.AttendanceChecker.DownloadAttendanceFile | app/components/attendance-checker.tsx:129-150 | the file text lists every participant, and only the success message changes |
| Attendance.AttendanceChecker.DownloadBackupFile | app/components/attendance-checker.tsx:152-169 | the backup text uploads again as the same list with attendance reset, and only the success message changes |
| Attendance.RowParticipant | app/components/attendance-checker.tsx:79-87 | one data row as a participant, not attended; `Attendance.FromRow` and `Attendance.CleanRowsParticipants`: on the participant header it takes each column's cell |
| Attendance.TableParticipants | app/components/attendance-checker.tsx:76-89 | the rows as participants, nameless rows dropped; `Attendance.CleanRowsParticipants`: clean rows come back as `Attendance.FromRows` of them |
| Attendance.ParseParticipants | app/components/attendance-checker.tsx:61-89 | the participant file's text; `Attendance.ParsedParticipantsFresh`: every result not attended, `Attendance.ReimportBackup`: it reads back the backup file |
| Attendance.ImportParticipants | app/components/attendance-checker.tsx:49-89 | the upload handler's result; `Attendance.ImportParticipantsFails`: each refusal exactly when its condition holds |
| Attendance.RowLine | app/components/attendance-checker.tsx:155 | one backup row; `Attendance.RowLines` lists them, `Csv.CleanLine`: a row of clean fields is read back from its line |
| Attendance.NameMatches | app/components/attendance-checker.tsx:105 | the case-insensitive name test; `Attendance.MatchingFrom` selects exactly the matching positions |
| Attendance.Matching | app/components/attendance-checker.tsx:105 | the matching positions; `Attendance.MatchingViews`: the participants at them are the roster filtered by the name test, in order |
| Attendance.AttendedCount | app/components/attendance-checker.tsx:171 | `attendedCount`; `Attendance.CountsAddUp`: attended plus absent is the total, `Attendance.MarkRaisesCount`: marking raises it by one |
| Attendance.AttendanceMark | app/components/attendance-checker.tsx:135 | "출석" or "미출석"; `Attendance.AttendanceLineCells`: the sixth cell is "출석" exactly for an attended participant |
| Attendance.AttendanceFile | app/components/attendance-checker.tsx:131-137 | the attendance file's text; `Attendance.AttendanceFileLines`: split at newlines it is the header then one line per participant |
| Attendance.BackupRow | app/components/attendance-checker.tsx:155 | a participant's five uploaded fields; `Attendance.BackupRows` lists them and `Attendance.ReimportBackup` reads them back |
| Attendance.BackupFile | app/components/attendance-checker.tsx:152-156 | the backup file's text; `Attendance.ReimportBackup`: uploading it gives the participants back with attendance cleared, `Attendance.EmptyBackupRefused`: an empty list's backup is refused |
| Attendance.AfterUpload | app/components/attendance-checker.tsx:91-93 | the state after an upload: the list and the uploaded flag on success, the matching banner in every case; `Attendance.AttendanceChecker.ShowUpload` ends in it |
| Attendance.AfterSearch | app/components/attendance-checker.tsx:100-112 | the state after each search outcome; `Attendance.AttendanceChecker.ShowOutcome` ends in it |
| SampleGenerator.PickIndex | app/components/sample-generator-dialog.tsx:64 | the picked position lies within the used names |
| SampleGenerator.AddName | app/components/sample-generator-dialog.tsx:69 | adding to the set keeps the earlier names, contains the name and keeps it duplicate-free |
| SampleGenerator.Step | app/components/sample-generator-dialog.tsx:58-80 | one pass keeps the earlier rows and adds one |
| SampleGenerator.StepRows | app/components/sample-generator-dialog.tsx:58-80 | a pass keeps every earlier row and appends the row of the draw with the name it chose |
| SampleGenerator.Generate | app/components/sample-generator-dialog.tsx:58-80 | one row per draw |
| SampleGenerator.GenerateNext | app/components/sample-generator-dialog.tsx:58-80 | one more draw is one more pass |
| SampleGenerator.NextRow | app/components/sample-generator-dialog.tsx:59-79 | the loop body gives the draw's row and the used names after it |
| SampleGenerator.GenerateSampleCsv | app/components/sample-generator-dialog.tsx:35-83 | the loop builds exactly the sample text of the draws |
| SampleGenerator.StepUsed | app/components/sample-generator-dialog.tsx:61-70 | a reused name is already used and adds nothing; a fresh name is the drawn list entry and is added; the used names only grow |
| SampleGenerator.GeneratePrefix | app/components/sample-generator-dialog.tsx:58-80 | the rows of the first m draws are the first m rows |
| SampleGenerator.RowAt | app/components/sample-generator-dialog.tsx:58-80 | row i is the row of draw i, named against the names used before it |
| SampleGenerator.NoHomonymsFresh | app/components/sample-generator-dialog.tsx:53-70 | without homonyms every row's name is its own fresh draw |
| SampleGenerator.GeneratedNames | app/components/sample-generator-dialog.tsx:55-70 | the used names are distinct names from the list, and every row's name is among them |
| SampleGenerator.GeneratedFields | app/components/sample-generator-dialog.tsx:72-79 | each row's organisation and position come from the fixed lists, and its e-mail and phone from its own draws |
| SampleGenerator.ListsClean | app/components/sample-generator-dialog.tsx:37-50 | the fixed names, organisations and positions are clean CSV cells, and no name is empty |
| SampleGenerator.PhoneShape | app/components/sample-generator-dialog.tsx:77 | the phone is "010-", four digits reading as the first draw, "-", and four digits reading as the second |
| SampleGenerator.EmailValid | app/components/sample-generator-dialog.tsx:76 | the e-mail always passes the forms' e-mail check |
| SampleGenerator.ContactClean | app/components/sample-generator-dialog.tsx:76-77 | the e-mail and the phone are clean CSV cells |
| SampleGenerator.SampleRowClean | app/components/sample-generator-dialog.tsx:79 | a row named from the list is clean |
| SampleGenerator.GeneratedRowsClean | app/components/sample-generator-dialog.tsx:58-80 | every generated row is clean |
| SampleGenerator.SampleLines | app/components/sample-generator-dialog.tsx:36-82 | the text is the header and exactly one line per requested row, and each line is exactly the row's five fields |
| SampleGenerator.SampleImports | app/components/sample-generator-dialog.tsx:35-83 | a non-empty sample passes the participant upload and reads back as one not-attended participant per row, with the row's fields |
| SampleGenerator.Decremented | app/components/sample-generator-dialog.tsx:129 | never below 5; five less from 10 on, and 5 below that |
| SampleGenerator.Incremented | app/components/sample-generator-dialog.tsx:137 | never above 100; five more up to 95, and 100 above that |
| SampleGenerator.ButtonsKeepRange | app/components/sample-generator-dialog.tsx:129-146 | the buttons keep a count in the slider's range 5..100 within it, moving it the right way |
| SampleGenerator.SampleGeneratorDialog.constructor | app/components/sample-generator-dialog.tsx:30-32 | closed, 20 participants, homonyms included |
| SampleGenerator.SampleGeneratorDialog.Decrement | app/components/sample-generator-dialog.tsx:129 | the count is decremented and stays within 5..100 |
| SampleGenerator.SampleGeneratorDialog.Increment | app/components/sample-generator-dialog.tsx:137 | the count is incremented and stays within 5..100 |
| SampleGenerator.SampleGeneratorDialog.SlideTo | app/components/sample-generator-dialog.tsx:143-149 | the count becomes the slider's value |
| SampleGenerator.SampleGeneratorDialog.SetOpen | app/components/sample-generator-dialog.tsx:112 | only the dialog's visibility changes |
| SampleGenerator.SampleGeneratorDialog.SetIncludeHomonyms | app/components/sample-generator-dialog.tsx:158 | only the homonym option changes |
| SampleGenerator.SampleGeneratorDialog.HandleGenerate | app/components/sample-generator-dialog.tsx:98-102 | the download is the sample text under "출석체크_샘플데이터_{count}명.csv"; it uploads as one participant per row; the dialog closes |
| SampleGenerator.Reuses | app/components/sample-generator-dialog.tsx:61 | whether a row reuses a drawn name; `SampleGenerator.StepUsed` states both cases |
| SampleGenerator.ChooseName | app/components/sample-generator-dialog.tsx:59-70 | the row's name; `SampleGenerator.StepUsed`: a reused name is already used, a new one is the drawn list entry and becomes used |
| SampleGenerator.NextUsed | app/components/sample-generator-dialog.tsx:69 | the used-name set after a row; `SampleGenerator.StepUsed`: unchanged on reuse, gains the name otherwise |
| SampleGenerator.SampleEmail | app/components/sample-generator-dialog.tsx:76 | `${name}${n}@example.com`; `SampleGenerator.EmailValid`: it passes the e-mail check, `SampleGenerator.ContactClean`: a clean CSV field |
| SampleGenerator.SamplePhone | app/components/sample-generator-dialog.tsx:77 | `010-xxxx-xxxx`; `SampleGenerator.PhoneShape`: that shape with four-digit groups |
| SampleGenerator.SampleRow | app/components/sample-generator-dialog.tsx:72-79 | one generated row; `SampleGenerator.SampleRowClean`: every field clean, `SampleGenerator.GeneratedFields`: the drawn organisation, position, e-mail and phone |
| SampleGenerator.SampleCsv | app/components/sample-generator-dialog.tsx:35-83 | `generateSampleCSV`'s text; `SampleGenerator.SampleLines`: the header then one line per row, `SampleGenerator.SampleImports`: the participant upload reads the rows back |
| SampleGenerator.SampleFileName | app/components/sample-generator-dialog.tsx:100 | `출석체크_샘플데이터_${count}명.csv`; `SampleGenerator.SampleGeneratorDialog.HandleGenerate` names the file with it |
| Analytics.StatusAgreesWithBadge | app/components/analytics.tsx:36-41 | the dashboard classifies every event as the event list's badge does, and a closed event is completed |
| Analytics.StatusesAddUp | app/components/analytics.tsx:55-58 | the three status counts of a list add up to its length |
| Analytics.MonthOfFormattedDate | app/components/analytics.tsx:47 | a date written by the calendar is read back in its month, counted from 1 |
| Analytics.MonthEventsIff | app/components/analytics.tsx:45-53 | an event is in a month's bar exactly when it is dated in that month and the filter, if any, is that month |
| Analytics.OtherMonthsEmpty | app/components/analytics.tsx:45-53 | with a month selected every other month's bar is empty |
| Analytics.UnfilteredMonth | app/components/analytics.tsx:45-53 | without a filter a month's bar is every event dated in it, in order |
| Analytics.MonthlyData | app/components/analytics.tsx:43-67 | twelve entries, entry i for month i + 1 with its name |
| Analytics.MonthCountsAddUp | app/components/analytics.tsx:55-64 | each month's three status counts add up to its total, which counts the month's events |
| Analytics.MonthTotals | app/components/analytics.tsx:45-64 | with month m selected every other total is 0; without a filter each month counts every event dated in it |
| Analytics.TotalStatsOf | app/components/analytics.tsx:70 | the total is the number of events |
| Analytics.TotalStatsAddUp | app/components/analytics.tsx:69-74 | every event falls in exactly one status card |
| Analytics.VisitorStatsOf | app/components/analytics.tsx:78 | the total is the number of visitors |
| Analytics.VisitorStatsConsistent | app/components/analytics.tsx:77-82 | pre-registered plus on-site visitors are all visitors, and the checked-in count is at most the pre-registered |
| Analytics.FilteredEventsIff | app/components/analytics.tsx:96-101 | empty without a selection; with month m exactly the events dated in m, the same as m's bar |
| Analytics.StatusOf | app/components/analytics.tsx:36-41 | the event status; `Analytics.StatusAgreesWithBadge`: the same status as the event list's badge, and completed for a closed event |
| Analytics.EventMonth | app/components/analytics.tsx:47 | `parseInt(eventDate.split("-")[1], 10)`; `Analytics.MonthOfFormattedDate`: the month of a date the event list formatted |
| Analytics.MonthEvents | app/components/analytics.tsx:45-53 | one month's events; `Analytics.MonthEventsIff`: exactly the events of that month passing the month filter |
| Analytics.MonthEntry | app/components/analytics.tsx:54-64 | one month's bucket; `Analytics.MonthCountsAddUp`: the total counts that month's events and the three statuses add up to it |
| Analytics.FilteredEvents | app/components/analytics.tsx:96-101 | the events listed for the chosen month; `Analytics.FilteredEventsIff`: none without a filter, otherwise exactly the events of that month |
| VisitorAnalytics.Prefix7 | app/components/visitor-analytics.tsx:20 | `substring(0, 7)` is a prefix of at most seven characters, seven when there are |
| VisitorAnalytics.ClosedPrefixes | app/components/visitor-analytics.tsx:20 | the prefixes of the closed events, in order |
| VisitorAnalytics.ClosedPrefixListed | app/components/visitor-analytics.tsx:20 | the prefix of every closed event is listed |
| VisitorAnalytics.ListedPrefixClosed | app/components/visitor-analytics.tsx:20 | every listed prefix is that of some closed event |
| VisitorAnalytics.ClosedPrefixesIff | app/components/visitor-analytics.tsx:19-21 | a prefix is listed exactly when some closed event's date has it |
| VisitorAnalytics.Distinct | app/components/visitor-analytics.tsx:19-21 | the set's array is duplicate-free and has the same elements |
| VisitorAnalytics.Insert | app/components/visitor-analytics.tsx:22 | insertion adds exactly one element |
| VisitorAnalytics.InsertAscending | app/components/visitor-analytics.tsx:22 | inserting a new element keeps a list strictly ascending |
| VisitorAnalytics.Sort | app/components/visitor-analytics.tsx:22 | sorting keeps the length and the elements |
| VisitorAnalytics.SortAscending | app/components/visitor-analytics.tsx:22 | sorting distinct strings gives a strictly ascending list |
| VisitorAnalytics.Reverse | app/components/visitor-analytics.tsx:23 | reversing puts element i at position n - 1 - i |
| VisitorAnalytics.AvailableMonthsSpec | app/components/visitor-analytics.tsx:19-23 | the offered months are distinct, strictly descending, and exactly the month prefixes of the closed events |
| VisitorAnalytics.TargetEventsIff | app/components/visitor-analytics.tsx:35 | the targets are exactly the closed events whose date starts with the month |
| VisitorAnalytics.OfferedMonthHasEvents | app/components/visitor-analytics.tsx:178-179 | every month offered shows at least one closed event |
| VisitorAnalytics.VisitorRows | app/components/visitor-analytics.tsx:45-66 | two rows per target event |
| VisitorAnalytics.VisitorRowsAt | app/components/visitor-analytics.tsx:45-66 | rows 2k and 2k + 1 are the two records of the k-th event, tagged with its name |
| VisitorAnalytics.RowLines | app/components/visitor-analytics.tsx:70-82 | one line per row, in order |
| VisitorAnalytics.RowLineFields | app/components/visitor-analytics.tsx:71-81 | a comma-free row gives eight cells: the event name, the visitor's name and contact quoted, "참석" exactly when checked in, and "현장등록" exactly when on-site, else "" |
| VisitorAnalytics.ContentLines | app/components/visitor-analytics.tsx:69-85 | the file is the header line and then one line per row, in order |
| VisitorAnalytics.HandleDownload | app/components/visitor-analytics.tsx:25-96 | no month only alerts; a month without closed events resets the status and alerts; otherwise exactly the file of the target events' rows, named after the month, with the done status |
| VisitorAnalytics.OfferedMonthDownloads | app/components/visitor-analytics.tsx:128-149 | every month offered downloads a file of two rows per target event |
| VisitorAnalytics.AvailableMonths | app/components/visitor-analytics.tsx:19-23 | the month list; `VisitorAnalytics.AvailableMonthsSpec`: distinct, newest first, and exactly the months of closed events |
| VisitorAnalytics.TargetEvents | app/components/visitor-analytics.tsx:35 | the events downloaded for a month; `VisitorAnalytics.TargetEventsIff`: exactly the closed events whose date starts with it |
| VisitorAnalytics.Quote | app/components/visitor-analytics.tsx:71-80 | a field wrapped in double quotes; `VisitorAnalytics.RowLineFields`: the quoted fields are the row's cells |
| VisitorAnalytics.RowFields | app/components/visitor-analytics.tsx:71-81 | the eight fields of a row; `VisitorAnalytics.RowLineFields`: split at commas, the line gives them back |
| VisitorAnalytics.RowLine | app/components/visitor-analytics.tsx:81 | one CSV row; `VisitorAnalytics.RowLineFields`: eight cells, the attendance cell "참석" exactly for a checked-in visitor |
| VisitorAnalytics.Content | app/components/visitor-analytics.tsx:69-85 | the download's text; `VisitorAnalytics.ContentLines`: split at newlines it is the header then one line per row |
| SpeakerManagement.NewSpeakerFields | app/components/speaker-management.tsx:38-46 | the new speaker carries exactly the form's five fields, the clock's id and the time |
| SpeakerManagement.WithoutIdSpec | app/components/speaker-management.tsx:61 | deleting keeps exactly the speakers with another id, and leaves a list without the id as it is |
| SpeakerManagement.WithoutIdComplete | app/components/speaker-management.tsx:61 | deleting keeps every speaker complete |
| SpeakerManagement.SpeakerPage.constructor | app/components/speaker-management.tsx:22-30 | no speakers, the modal closed, an empty form |
| SpeakerManagement.SpeakerPage.SetShowAddModal | app/components/speaker-management.tsx:73 | only the modal's visibility changes |
| SpeakerManagement.SpeakerPage.SetForm | app/components/speaker-management.tsx:162-203 | only the form changes |
| SpeakerManagement.SpeakerPage.HandleAddSpeaker | app/components/speaker-management.tsx:32-57 | an incomplete form only prompts; otherwise exactly one speaker with the form's fields is appended, the modal closes and the form is emptied |
| SpeakerManagement.SpeakerPage.HandleDeleteSpeaker | app/components/speaker-management.tsx:59-63 | a confirmed delete removes every speaker with the id; a declined one changes nothing |
| SpeakerManagement.FormComplete | app/components/speaker-management.tsx:33 | all five speaker fields filled in; `SpeakerManagement.SpeakerPage.HandleAddSpeaker` adds a speaker only when it holds |
| SpeakerManagement.NewSpeaker | app/components/speaker-management.tsx:38-46 | the new speaker; `SpeakerManagement.NewSpeakerFields`: the form's fields, the clock reading as id, the creation time |
| SpeakerManagement.WithoutId | app/components/speaker-management.tsx:61 | `speakers.filter((s) => s.id !== id)`; `SpeakerManagement.WithoutIdSpec`: exactly the others, and the list unchanged when the id is absent |
| CertificateManagement.DisplayNameSpec | app/components/certificate-management.tsx:67 | the display name is the file name up to its first "." |
| CertificateManagement.WithoutIdIff | app/components/certificate-management.tsx:105 | deleting keeps exactly the files with another id |
| CertificateManagement.ToggleSpec | app/components/certificate-management.tsx:115-117 | after a toggle the id is ticked exactly when it was not; every other id keeps its state; duplicate-freedom is kept |
| CertificateManagement.ToggleTwice | app/components/certificate-management.tsx:116 | toggling an unticked id twice restores the list; toggling a ticked one twice moves it to the end; the ticked ids are the same either way |
| CertificateManagement.ToggleTwiceReorders | app/components/certificate-management.tsx:116 | toggling is not an involution: "1" in ["1", "2"] ends up last |
| CertificateManagement.WithField | app/components/certificate-management.tsx:131-136 | the named preview field takes the value and the others keep theirs |
| CertificateManagement.CertificatePage.constructor | app/components/certificate-management.tsx:38-48 | no files, the default preview, nothing selected |
| CertificateManagement.CertificatePage.HandleTemplateUpload | app/components/certificate-management.tsx:61-74 | a picked file appends exactly one template named by its file name; no file changes nothing |
| CertificateManagement.CertificatePage.HandleSealUpload | app/components/certificate-management.tsx:76-89 | a picked file appends exactly one seal; no file changes nothing |
| CertificateManagement.CertificatePage.HandleParticipantUpload | app/components/certificate-management.tsx:91-101 | only a ".csv" name is kept; any other prompts and changes nothing |
| CertificateManagement.CertificatePage.HandleDeleteTemplate | app/components/certificate-management.tsx:103-107 | a confirmed delete removes the templates with the id, and nothing else changes |
| CertificateManagement.CertificatePage.HandleDeleteSeal | app/components/certificate-management.tsx:109-113 | a confirmed delete removes the seals with the id, and nothing else changes |
| CertificateManagement.CertificatePage.SetShowEventModal | app/components/certificate-management.tsx:376 | only the modal's visibility changes |
| CertificateManagement.CertificatePage.HandleEventSelection | app/components/certificate-management.tsx:115-117 | the selection is toggled, staying duplicate-free |
| CertificateManagement.CertificatePage.HandleLoadEventData | app/components/certificate-management.tsx:119-129 | an empty selection is refused with a prompt; otherwise the modal closes and the prompt counts the events |
| CertificateManagement.CertificatePage.HandlePreviewDataChange | app/components/certificate-management.tsx:131-136 | only the named preview field changes |
| CertificateManagement.DisplayName | app/components/certificate-management.tsx:67 | `file.name.split(".")[0]`; `CertificateManagement.DisplayNameSpec`: the part of the name before its first "." |
| CertificateManagement.WithoutId | app/components/certificate-management.tsx:105 | the file list without one id; `CertificateManagement.WithoutIdIff`: exactly the files with another id |
| CertificateManagement.Toggle | app/components/certificate-management.tsx:116 | the selection toggle; `CertificateManagement.ToggleSpec`: the id flips in or out, nothing else changes, no duplicates appear |
| CertificateManagement.FieldValue | app/components/certificate-management.tsx:131-136 | the preview value of one field; `CertificateManagement.WithField`: setting a field changes that value and no other |
| SignUpDialog.Validate | app/components/auth/signup-dialog.tsx:45-63 | the form passes exactly when all four fields are filled, the e-mail passes, the password has at least 8 characters and matches its confirmation |
| SignUpDialog.ValidateOrder | app/components/auth/signup-dialog.tsx:45-63 | each check rejects on its own, and a later check's message appears only when the earlier checks passed |
| SignUpDialog.WithField | app/components/auth/signup-dialog.tsx:42 | the input's field takes the value |
| SignUpDialog.SignUpPage.constructor | app/components/auth/signup-dialog.tsx:24-33 | an empty form, no banner, not loading |
| SignUpDialog.SignUpPage.HandleInputChange | app/components/auth/signup-dialog.tsx:40-43 | only the named field changes |
| SignUpDialog.SignUpPage.ValidateForm | app/components/auth/signup-dialog.tsx:45-63 | true exactly for a valid form; otherwise the first failure's message is raised and nothing else changes |
| SignUpDialog.SignUpPage.HandleSignUp | app/components/auth/signup-dialog.tsx:65-96 | the service is called only for a valid form; its answer decides the banner, and loading ends |
| SignUpDialog.SignUpPage.ResetForm | app/components/auth/signup-dialog.tsx:98-101 | all four fields become "" and the banner goes |
| SignUpDialog.SignUpPage.OnOpenChange | app/components/auth/signup-dialog.tsx:106-109 | closing resets the form; opening changes nothing |
| InquiryDialog.ProfileForm | app/components/inquiry-dialog.tsx:23-29 | the signed-in user's four profile fields, or all empty, with the given content |
| InquiryDialog.Check | app/components/inquiry-dialog.tsx:62-70 | the form passes exactly when name, e-mail and content are filled and the e-mail passes; a missing one gives the missing-field message |
| InquiryDialog.CheckIgnoresOptional | app/components/inquiry-dialog.tsx:63 | affiliation and position never decide the check |
| InquiryDialog.CheckEmail | app/components/inquiry-dialog.tsx:67-70 | the e-mail message is shown exactly when the required fields are filled and the e-mail has no match of the pattern |
| InquiryDialog.WithField | app/components/inquiry-dialog.tsx:54 | the input's field takes the value |
| InquiryDialog.InquiryPage.constructor | app/components/inquiry-dialog.tsx:23-30 | the profile of the signed-in user, no content, no banner |
| InquiryDialog.InquiryPage.SyncUser | app/components/inquiry-dialog.tsx:32-50 | the profile is copied from the user or cleared; the content is kept |
| InquiryDialog.InquiryPage.HandleInputChange | app/components/inquiry-dialog.tsx:52-55 | only the named field changes |
| InquiryDialog.InquiryPage.HandleSubmit | app/components/inquiry-dialog.tsx:62-99 | a failing form only raises the first failure; a sent form raises the success banner and is reset to the profile with no content |
| InquiryDialog.SuccessMessage | app/components/inquiry-dialog.tsx:77 | the success banner for each inquiry type; `InquiryDialog.InquiryPage.HandleSubmit` shows it after a valid submission |

## Left out

- Rendering is not modelled: JSX, styling, icons, chart heights and the 1.2 scaling.
- Banner auto-dismiss timers are not modelled: each `setTimeout(() => setAlert(null), 3000)`, and the delayed dialog closes in the sign-up and inquiry dialogs.
- Browser I/O is not modelled:
  - `FileReader`, `Blob`, the byte-order mark, `URL.createObjectURL`, link clicks and `console` output;
  - the file texts are modelled without the byte-order mark;
  - `localStorage` in `handleCreateEvent`.
- Certificate files keep no `previewUrl`, since an object URL is browser I/O.
- The clock, the locale and `Math.random()` are parameters. `toLocaleString("ko-KR")` becomes an opaque string, and "today" is a string argument.
- Calendar month navigation and the day grid (`navigateMonth`, `getDaysInMonth`, `getFirstDayOfMonth`) are not modelled. They are JavaScript `Date` arithmetic.
- The analytics month filter setter and its animation counter (`handleMonthFilter`) are not modelled. They are a plain state setter and a redraw trigger.
- The account service is not modelled. `supabase.auth.signUp` becomes the three possible answers, and the login dialog and `app/page.tsx` are not part of this model.
- The sample visitor values that `visitor-analytics.tsx` writes for each event (lines 45-66) are two parameters; only the row structure is modelled.
- The visitor download's `catch` branch is not modelled, because nothing in the modelled code can throw.
- The certificate page's sample `closedEvents` list is not modelled; the selection works on any ids.
- Floating point is not modelled:
  - `Math.round` of a ratio is computed with integers, as rounding halves up;
  - this agrees with the floating-point result except where a ratio's binary rounding crosses a half.
- `toLowerCase()` is modelled for ASCII letters only; other scripts are left unchanged.
- Lengths and string order count characters, while JavaScript counts and compares UTF-16 code units. This matters for the sign-up password length, for `substring(0, 7)`, and for the order that string `<` (`Text.LexLess`) and `sort()` (`VisitorAnalytics.Sort`) give, on characters outside the Basic Multilingual Plane.
- A visitor field absent in the source record (`memo`, `category`, `checkedInAt`) is "" or `None` in the model.
- Each handler is one atomic transition; React's batching of state updates is not modelled.
- The dashboard's "closed event is frozen" rule is a precondition (`!event.isClosed`) on the check-in desk's mutating methods, because the source enforces it only by disabling the buttons.
- Attendance.AttendanceChecker.HandleFileUpload: requires that no list was uploaded yet, because the source only shows the upload input then.
- EventOverview.Overview.EditVisitor: requires a listed visitor, because the edit button exists only on a listed record.
- EventOverview.Overview.DeleteVisitor: requires a listed visitor, because the delete button exists only on a listed record.
- EventOverview.Overview.DeleteVisitor: also requires distinct ids. When an on-site registration has repeated a listed id, the source's reset by id (event-overview.tsx:190-192) would also reset the on-site record sharing it, leaving it on site but not checked in; the model does not follow the roster past that point.
- SampleGenerator.NextRow is a method for the body of the row loop; `GenerateSampleCsv` calls it once per row.
- SampleGenerator.PickIndex: draws are given in the steps the model fixes:
  - the duplicate-name draw in tenths, so `r < 0.3` becomes `coin < 3`;
  - the used-name pick in thousandths;
  - a pick that falls between two of those steps is not represented.
- EventOverview.TotalPages: the page size 9 is written as a literal in the page arithmetic.
- CertificateManagement.ToggleTwice: toggling the same id twice restores the list only when the id was not ticked. Otherwise the id moves to the end (ToggleTwiceReorders); only the set of ticked ids is restored.
