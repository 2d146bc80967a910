/** The test-data dialog (`app/components/sample-generator-dialog.tsx`): it
    writes a participant list in the attendance desk's upload format, one row
    per requested participant, optionally reusing names already drawn so that
    the list holds people of the same name.

    Every `Math.random()` draw is a parameter. A draw the code only floors
    into a fixed range is given as that integer (`nameIndex`, `orgIndex`,
    `posIndex`, `emailNumber`, `phoneMid`, `phoneEnd`). The draw compared with
    the duplicate-name probability is `coin`, the tenth it falls in
    (`Math.floor(10 * r)`, so `r < 0.3` is `coin < 3`). The draw that picks a
    used name is `pick`, the thousandth it falls in, and the name picked is the
    one at `Math.floor(pick / 1000 * usedNames.size)`. */
module SampleGenerator {
  import opened Wrappers
  import opened Text
  import opened Seqs
  import opened Csv
  import opened Email
  import opened Attendance

  /** The sample names, organisations and positions. Each entry is a constant
      of its own, so that a proof about a drawn row opens only the entries it
      draws. */
  const Names := [Name0, Name1, Name2, Name3, Name4, Name5, Name6, Name7, Name8, Name9]
  const Name0 := "김민준"
  const Name1 := "이서연"
  const Name2 := "박지훈"
  const Name3 := "최수아"
  const Name4 := "정도윤"
  const Name5 := "강하은"
  const Name6 := "윤민서"
  const Name7 := "임준호"
  const Name8 := "한지민"
  const Name9 := "오현우"
  const Orgs := [Org0, Org1, Org2, Org3, Org4, Org5, Org6, Org7, Org8, Org9]
  const Org0 := "마케팅부"
  const Org1 := "개발팀"
  const Org2 := "인사팀"
  const Org3 := "영업부"
  const Org4 := "기획팀"
  const Org5 := "디자인팀"
  const Org6 := "재무팀"
  const Org7 := "고객지원팀"
  const Org8 := "연구소"
  const Org9 := "총무팀"
  const Positions := [Position0, Position1, Position2, Position3, Position4, Position5, Position6, Position7, Position8, Position9]
  const Position0 := "사원"
  const Position1 := "대리"
  const Position2 := "과장"
  const Position3 := "차장"
  const Position4 := "부장"
  const Position5 := "팀장"
  const Position6 := "실장"
  const Position7 := "이사"
  const Position8 := "상무"
  const Position9 := "전무"

  /** The steps in which the name-picking draw is given. */
  const PickScale: nat := 1000

  /** The random draws of one row. */
  datatype Draw = Draw(
    coin: nat,
    pick: nat,
    nameIndex: nat,
    orgIndex: nat,
    posIndex: nat,
    emailNumber: nat,
    phoneMid: nat,
    phoneEnd: nat)

  /** The ranges `Math.random()` and the code's arithmetic give each draw. */
  predicate InRange(d: Draw) {
    && d.coin < 10 && d.pick < PickScale
    && d.nameIndex < |Names| && d.orgIndex < |Orgs| && d.posIndex < |Positions|
    && d.emailNumber < 1000
    && 1000 <= d.phoneMid < 10000 && 1000 <= d.phoneEnd < 10000
  }

  predicate AllInRange(draws: seq<Draw>) {
    forall i :: 0 <= i < |draws| ==> InRange(draws[i])
  }

  /** `duplicateNameProbability` in tenths: 0.3 with homonyms, 0 without. */
  function DuplicateTenths(includeHomonyms: bool): nat {
    if includeHomonyms then 3 else 0
  }

  /** `Math.random() < duplicateNameProbability && usedNames.size > 0`. */
  predicate Reuses(d: Draw, includeHomonyms: bool, used: seq<string>) {
    d.coin < DuplicateTenths(includeHomonyms) && |used| > 0
  }

  /** `Math.floor(Math.random() * usedNamesArray.length)`. */
  function PickIndex(pick: nat, n: nat): (k: nat)
    requires pick < PickScale && n > 0
    ensures k < n
  {
    assert pick * n < PickScale * n by {
      assert (PickScale - pick) * n > 0;
    }
    QuotientBelow(pick * n, PickScale, n - 1);
    pick * n / PickScale
  }

  /** The name of the row: a used name, or a fresh draw from the list. */
  function ChooseName(d: Draw, includeHomonyms: bool, used: seq<string>): string
    requires InRange(d)
  {
    if Reuses(d, includeHomonyms, used) then used[PickIndex(d.pick, |used|)] else Names[d.nameIndex]
  }

  /** `usedNames.add(name)`: a set keeps its insertion order and no duplicates. */
  function AddName(used: seq<string>, name: string): (r: seq<string>)
    ensures name in r && used <= r
    ensures NoDup(used) ==> NoDup(r)
  {
    if name in used then used else used + [name]
  }

  /** The used names after the row: only a fresh draw adds its name. */
  function NextUsed(d: Draw, includeHomonyms: bool, used: seq<string>): seq<string>
    requires InRange(d)
  {
    if Reuses(d, includeHomonyms, used) then used else AddName(used, Names[d.nameIndex])
  }

  /** `${name}${Math.floor(Math.random() * 1000)}@example.com`. */
  function SampleEmail(name: string, n: nat): string {
    name + NatToString(n) + "@example.com"
  }

  /** `010-${...}-${...}`. */
  function SamplePhone(mid: nat, end: nat): string {
    "010-" + NatToString(mid) + "-" + NatToString(end)
  }

  function SampleRow(name: string, d: Draw): Row
    requires InRange(d)
  {
    Row(name, Orgs[d.orgIndex], Positions[d.posIndex], SampleEmail(name, d.emailNumber),
      SamplePhone(d.phoneMid, d.phoneEnd))
  }

  datatype Generated = Generated(rows: seq<Row>, used: seq<string>)

  /** One pass of the loop: the row of draw `d` and the used names after it. */
  function Step(g: Generated, d: Draw, includeHomonyms: bool): (r: Generated)
    requires InRange(d)
    ensures |r.rows| == |g.rows| + 1 && r.rows[..|g.rows|] == g.rows
  {
    Generated(g.rows + [SampleRow(ChooseName(d, includeHomonyms, g.used), d)],
      NextUsed(d, includeHomonyms, g.used))
  }

  /** The rows of the draws, in order, and the used names they leave. */
  function Generate(draws: seq<Draw>, includeHomonyms: bool): (g: Generated)
    requires AllInRange(draws)
    ensures |g.rows| == |draws|
    decreases |draws|
  {
    if |draws| == 0 then Generated([], [])
    else Step(Generate(draws[..|draws| - 1], includeHomonyms), draws[|draws| - 1], includeHomonyms)
  }

  /** `[headers, ...rows].join("\n")`; the header is the backup's. */
  function SampleCsv(draws: seq<Draw>, includeHomonyms: bool): string
    requires AllInRange(draws)
  {
    Join([BackupHeader] + RowLines(Generate(draws, includeHomonyms).rows), '\n')
  }

  /** One more draw is one more pass of the loop. */
  lemma GenerateNext(draws: seq<Draw>, includeHomonyms: bool, i: nat)
    requires AllInRange(draws) && i < |draws|
    ensures AllInRange(draws[..i]) && InRange(draws[i])
    ensures Generate(draws[..i + 1], includeHomonyms) ==
      Step(Generate(draws[..i], includeHomonyms), draws[i], includeHomonyms)
  {
    assert draws[..i + 1][..i] == draws[..i];
  }

  /** One pass of the loop of `generateSampleCSV`: the row of draw `d`, with
      the used names updated when a fresh name is drawn. */
  method NextRow(d: Draw, includeHomonyms: bool, usedNames: seq<string>) returns (row: Row, used: seq<string>)
    requires InRange(d)
    ensures row == SampleRow(ChooseName(d, includeHomonyms, usedNames), d)
    ensures used == NextUsed(d, includeHomonyms, usedNames)
  {
    var name: string;
    used := usedNames;
    if d.coin < DuplicateTenths(includeHomonyms) && |usedNames| > 0 {
      name := usedNames[PickIndex(d.pick, |usedNames|)];
    } else {
      name := Names[d.nameIndex];
      if name !in used {
        used := used + [name];
      }
    }
    var org := Orgs[d.orgIndex];
    var position := Positions[d.posIndex];
    var email := name + NatToString(d.emailNumber) + "@example.com";
    var phone := "010-" + NatToString(d.phoneMid) + "-" + NatToString(d.phoneEnd);
    row := Row(name, org, position, email, phone);
  }

  /** `generateSampleCSV(count, includeHomonyms)` with one draw per row. */
  method GenerateSampleCsv(count: nat, includeHomonyms: bool, draws: seq<Draw>) returns (text: string)
    requires |draws| == count && AllInRange(draws)
    ensures text == SampleCsv(draws, includeHomonyms)
  {
    var usedNames: seq<string> := [];
    var rows: seq<string> := [];
    ghost var g := Generated([], []);
    var i := 0;
    while i < count
      invariant 0 <= i <= count
      invariant g == Generate(draws[..i], includeHomonyms)
      invariant usedNames == g.used && rows == RowLines(g.rows)
    {
      GenerateNext(draws, includeHomonyms, i);
      var row;
      row, usedNames := NextRow(draws[i], includeHomonyms, usedNames);
      RowLinesAppend(g.rows, row);
      rows := rows + [RowLine(row)];
      g := Step(g, draws[i], includeHomonyms);
      i := i + 1;
    }
    assert draws[..count] == draws;
    text := Join([BackupHeader] + rows, '\n');
  }

  // ---------------------------------------------------------------- the used names

  /** A reused name is one already used and adds nothing; a fresh name is
      added to the used names, which only grow. */
  lemma StepUsed(d: Draw, includeHomonyms: bool, used: seq<string>)
    requires InRange(d)
    ensures Reuses(d, includeHomonyms, used) ==>
      ChooseName(d, includeHomonyms, used) in used && NextUsed(d, includeHomonyms, used) == used
    ensures !Reuses(d, includeHomonyms, used) ==>
      ChooseName(d, includeHomonyms, used) == Names[d.nameIndex] &&
      ChooseName(d, includeHomonyms, used) in NextUsed(d, includeHomonyms, used)
    ensures used <= NextUsed(d, includeHomonyms, used)
  {
  }

  /** A pass keeps the earlier rows and adds the row of its draw. */
  lemma StepRows(g: Generated, d: Draw, includeHomonyms: bool)
    requires InRange(d)
    ensures forall k :: 0 <= k < |g.rows| ==> Step(g, d, includeHomonyms).rows[k] == g.rows[k]
    ensures Step(g, d, includeHomonyms).rows[|g.rows|] == SampleRow(ChooseName(d, includeHomonyms, g.used), d)
  {
  }

  /** The last draw keeps the rows of the draws before it. */
  lemma GenerateKeeps(draws: seq<Draw>, includeHomonyms: bool)
    requires AllInRange(draws) && |draws| > 0
    ensures AllInRange(draws[..|draws| - 1])
    ensures Generate(draws, includeHomonyms).rows[..|draws| - 1] == Generate(draws[..|draws| - 1], includeHomonyms).rows
  {
  }

  /** The rows of the first m draws are the first m rows: later draws only
      append. */
  lemma {:induction false} GeneratePrefix(draws: seq<Draw>, includeHomonyms: bool, m: nat)
    requires AllInRange(draws) && m <= |draws|
    ensures AllInRange(draws[..m])
    ensures Generate(draws[..m], includeHomonyms).rows == Generate(draws, includeHomonyms).rows[..m]
    decreases |draws|
  {
    if m < |draws| {
      var n := |draws| - 1;
      var rows := Generate(draws, includeHomonyms).rows;
      GenerateKeeps(draws, includeHomonyms);
      assert rows[..m] == rows[..n][..m];
      GeneratePrefix(draws[..n], includeHomonyms, m);
      assert draws[..n][..m] == draws[..m];
    } else {
      assert draws[..m] == draws;
    }
  }

  /** Row i is the sample row of draw i, named against the names used by
      the rows before it; later draws do not change it. */
  lemma RowAt(draws: seq<Draw>, includeHomonyms: bool, i: nat)
    requires AllInRange(draws) && i < |draws|
    ensures Generate(draws, includeHomonyms).rows[i]
         == SampleRow(ChooseName(draws[i], includeHomonyms, Generate(draws[..i], includeHomonyms).used), draws[i])
  {
    GeneratePrefix(draws, includeHomonyms, i + 1);
    GenerateNext(draws, includeHomonyms, i);
    StepRows(Generate(draws[..i], includeHomonyms), draws[i], includeHomonyms);
  }

  /** Without homonyms the reuse branch is never taken: every row's name is
      its own fresh draw. */
  lemma NoHomonymsFresh(draws: seq<Draw>)
    requires AllInRange(draws)
    ensures forall i :: 0 <= i < |draws| ==> Generate(draws, false).rows[i].name == Names[draws[i].nameIndex]
  {
    forall i | 0 <= i < |draws| ensures Generate(draws, false).rows[i].name == Names[draws[i].nameIndex] {
      var used := Generate(draws[..i], false).used;
      RowAt(draws, false, i);
      assert !Reuses(draws[i], false, used);
    }
  }

  /** The used names are distinct names from the list, and every row's name
      is among them. */
  lemma {:induction false} GeneratedNames(draws: seq<Draw>, includeHomonyms: bool)
    requires AllInRange(draws)
    ensures NoDup(Generate(draws, includeHomonyms).used)
    ensures forall k :: 0 <= k < |Generate(draws, includeHomonyms).used| ==>
      Generate(draws, includeHomonyms).used[k] in Names
    ensures forall i :: 0 <= i < |draws| ==>
      Generate(draws, includeHomonyms).rows[i].name in Generate(draws, includeHomonyms).used
    decreases |draws|
  {
    if |draws| > 0 {
      var n := |draws| - 1;
      GeneratedNames(draws[..n], includeHomonyms);
      var g0 := Generate(draws[..n], includeHomonyms);
      var d := draws[n];
      StepUsed(d, includeHomonyms, g0.used);
      var g := Generate(draws, includeHomonyms);
      assert g.rows == g0.rows + [SampleRow(ChooseName(d, includeHomonyms, g0.used), d)];
      forall k | 0 <= k < |g.used| ensures g.used[k] in Names {
        if k >= |g0.used| {
          assert g.used[k] == Names[d.nameIndex];
        } else {
          assert g.used[k] == g0.used[k];
        }
      }
      forall i | 0 <= i < |g.rows| ensures g.rows[i].name in g.used {
        if i < n {
          assert g.rows[i] == g0.rows[i];
          assert g.rows[i].name in g0.used;
        }
      }
    }
  }

  /** Each row's organisation, position, e-mail and phone come from the row's
      own draws, the first two from the fixed lists. */
  lemma GeneratedFields(draws: seq<Draw>, includeHomonyms: bool)
    requires AllInRange(draws)
    ensures forall i :: 0 <= i < |draws| ==>
      var r := Generate(draws, includeHomonyms).rows[i];
      && r.organization == Orgs[draws[i].orgIndex]
      && r.position == Positions[draws[i].posIndex]
      && r.email == SampleEmail(r.name, draws[i].emailNumber)
      && r.phone == SamplePhone(draws[i].phoneMid, draws[i].phoneEnd)
  {
    forall i | 0 <= i < |draws| {
      RowAt(draws, includeHomonyms, i);
    }
  }

  // ---------------------------------------------------------------- the text

  /** The fixed lists hold clean, non-empty values. */
  lemma ListsClean()
    ensures forall i :: 0 <= i < |Names| ==> Names[i] != "" && CleanField(Names[i])
    ensures forall i :: 0 <= i < |Orgs| ==> CleanField(Orgs[i])
    ensures forall i :: 0 <= i < |Positions| ==> CleanField(Positions[i])
  {
    NamesClean();
    OrgsClean();
    PositionsClean();
  }

  lemma NamesClean()
    ensures forall i :: 0 <= i < |Names| ==> Names[i] != "" && CleanField(Names[i])
  {
  }

  lemma OrgsClean()
    ensures forall i :: 0 <= i < |Orgs| ==> CleanField(Orgs[i])
  {
  }

  lemma PositionsClean()
    ensures forall i :: 0 <= i < |Positions| ==> CleanField(Positions[i])
  {
  }

  /** A four-digit number prints as four digits. */
  lemma FourDigits(n: nat)
    requires 1000 <= n < 10000
    ensures |NatToString(n)| == 4
  {
    assert NatToString(n) == NatToString(n / 10) + [DigitChar(n % 10)];
    assert NatToString(n / 10) == NatToString(n / 100) + [DigitChar(n / 10 % 10)];
    assert NatToString(n / 100) == NatToString(n / 1000) + [DigitChar(n / 100 % 10)];
  }

  /** The phone is "010-", four digits, "-" and four digits. */
  lemma PhoneShape(mid: nat, end: nat)
    requires 1000 <= mid < 10000 && 1000 <= end < 10000
    ensures var p := SamplePhone(mid, end);
      |p| == 13 && p[..4] == "010-" && p[8] == '-'
      && AllDigits(p[4..8]) && AllDigits(p[9..])
      && DigitsValue(p[4..8]) == mid && DigitsValue(p[9..]) == end
  {
    FourDigits(mid);
    FourDigits(end);
    var p := SamplePhone(mid, end);
    assert p[4..8] == NatToString(mid);
    assert p[9..] == NatToString(end);
    DigitsOfNatToString(mid);
    DigitsOfNatToString(end);
  }

  /** The e-mail always passes the forms' e-mail check. */
  lemma EmailValid(name: string, n: nat)
    ensures IsEmail(SampleEmail(name, n))
  {
    var s := SampleEmail(name, n);
    var a := |name| + |NatToString(n)|;
    assert s[a - 1] == NatToString(n)[|NatToString(n)| - 1];
    assert s[a..] == "@example.com";
    assert MatchesAt(s, a, a + 8);
    IsEmailIff(s);
  }

  /** The e-mail and the phone are clean fields. */
  lemma ContactClean(name: string, n: nat, mid: nat, end: nat)
    requires name != "" && CleanField(name)
    ensures CleanField(SampleEmail(name, n)) && CleanField(SamplePhone(mid, end))
  {
    var digits, m, e := NatToString(n), NatToString(mid), NatToString(end);
    DigitsAvoid(digits, ',');
    DigitsAvoid(digits, '\n');
    DigitsAvoid(m, ',');
    DigitsAvoid(m, '\n');
    DigitsAvoid(e, ',');
    DigitsAvoid(e, '\n');
    var s := SampleEmail(name, n);
    assert s == name + digits + "@example.com";
    assert s[0] == name[0] && s[|s| - 1] == 'm';
    var p := SamplePhone(mid, end);
    assert p == "010-" + m + "-" + e;
    assert p[|p| - 1] == e[|e| - 1];
  }

  /** A sample row whose name is from the list is clean. */
  lemma SampleRowClean(name: string, d: Draw)
    requires InRange(d) && name in Names
    ensures CleanRow(SampleRow(name, d))
  {
    ListsClean();
    var k :| 0 <= k < |Names| && Names[k] == name;
    ContactClean(name, d.emailNumber, d.phoneMid, d.phoneEnd);
    var f := Fields(SampleRow(name, d));
    assert f[1] == Orgs[d.orgIndex] && f[2] == Positions[d.posIndex];
  }

  /** Every generated row is clean. */
  lemma GeneratedRowsClean(draws: seq<Draw>, includeHomonyms: bool)
    requires AllInRange(draws)
    ensures forall i :: 0 <= i < |draws| ==> CleanRow(Generate(draws, includeHomonyms).rows[i])
  {
    var rows := Generate(draws, includeHomonyms).rows;
    GeneratedNames(draws, includeHomonyms);
    forall i | 0 <= i < |rows| ensures CleanRow(rows[i]) {
      RowAt(draws, includeHomonyms, i);
      SampleRowClean(rows[i].name, draws[i]);
    }
  }

  /** The text is the header and exactly one line per requested row, and each
      line is exactly the row's five fields. */
  lemma SampleLines(draws: seq<Draw>, includeHomonyms: bool)
    requires AllInRange(draws)
    ensures Split(SampleCsv(draws, includeHomonyms), '\n')
         == [BackupHeader] + RowLines(Generate(draws, includeHomonyms).rows)
    ensures forall i :: 0 <= i < |draws| ==>
      Split(RowLine(Generate(draws, includeHomonyms).rows[i]), ',') == Fields(Generate(draws, includeHomonyms).rows[i])
  {
    var rows := Generate(draws, includeHomonyms).rows;
    GeneratedRowsClean(draws, includeHomonyms);
    BackupHeaderLine();
    var lines := [BackupHeader] + RowLines(rows);
    forall i | 0 <= i < |lines| ensures '\n' !in lines[i] {
      if i > 0 {
        assert lines[i] == RowLine(rows[i - 1]);
        CleanLine(Fields(rows[i - 1]));
      }
    }
    SplitJoin(lines, '\n');
    forall i | 0 <= i < |rows| ensures Split(RowLine(rows[i]), ',') == Fields(rows[i]) {
      SplitJoin(Fields(rows[i]), ',');
    }
  }

  /** A non-empty sample passes the attendance desk's upload and reads back
      as one not-yet-attended participant per row, carrying the row's fields. */
  lemma SampleImports(draws: seq<Draw>, includeHomonyms: bool)
    requires |draws| >= 1 && AllInRange(draws)
    ensures ParseParticipants(SampleCsv(draws, includeHomonyms))
         == Success(FromRows(Generate(draws, includeHomonyms).rows))
  {
    BackupHeaderLine();
    GeneratedRowsClean(draws, includeHomonyms);
    ParseCleanLines(BackupHeader, ParticipantColumns, Generate(draws, includeHomonyms).rows);
  }

  // ---------------------------------------------------------------- the dialog

  /** The "-" button: `Math.max(5, count - 5)`. */
  function Decremented(count: nat): (r: nat)
    ensures r >= 5 && (count >= 10 ==> r == count - 5) && (count <= 10 ==> r == 5)
  {
    if count >= 10 then count - 5 else 5
  }

  /** The "+" button: `Math.min(100, count + 5)`. */
  function Incremented(count: nat): (r: nat)
    ensures r <= 100 && (count <= 95 ==> r == count + 5) && (count >= 95 ==> r == 100)
  {
    if count + 5 <= 100 then count + 5 else 100
  }

  /** The buttons keep a count on the slider's range within it. */
  lemma ButtonsKeepRange(count: nat)
    requires 5 <= count <= 100
    ensures 5 <= Decremented(count) <= 100 && 5 <= Incremented(count) <= 100
    ensures Decremented(count) <= count <= Incremented(count)
  {
  }

  /** `출석체크_샘플데이터_${count}명.csv`. */
  function SampleFileName(count: nat): string {
    "출석체크_샘플데이터_" + NatToString(count) + "명.csv"
  }

  class SampleGeneratorDialog {
    var open: bool
    var count: nat
    var includeHomonyms: bool

    ghost predicate Valid()
      reads this
    {
      5 <= count <= 100
    }

    constructor ()
      ensures Valid() && !open && count == 20 && includeHomonyms
    {
      open := false;
      count := 20;
      includeHomonyms := true;
    }

    method Decrement()
      requires Valid()
      modifies this
      ensures Valid() && count == Decremented(old(count))
      ensures open == old(open) && includeHomonyms == old(includeHomonyms)
    {
      count := if count - 5 > 5 then count - 5 else 5;
    }

    method Increment()
      requires Valid()
      modifies this
      ensures Valid() && count == Incremented(old(count))
      ensures open == old(open) && includeHomonyms == old(includeHomonyms)
    {
      count := if count + 5 < 100 then count + 5 else 100;
    }

    /** The slider reports a value within its own range. */
    method SlideTo(value: nat)
      requires Valid() && 5 <= value <= 100
      modifies this
      ensures Valid() && count == value
      ensures open == old(open) && includeHomonyms == old(includeHomonyms)
    {
      count := value;
    }

    /** The trigger button, the cancel button and the dialog's own close. */
    method SetOpen(o: bool)
      requires Valid()
      modifies this
      ensures Valid() && open == o
      ensures count == old(count) && includeHomonyms == old(includeHomonyms)
    {
      open := o;
    }

    method SetIncludeHomonyms(checked: bool)
      requires Valid()
      modifies this
      ensures Valid() && includeHomonyms == checked
      ensures open == old(open) && count == old(count)
    {
      includeHomonyms := checked;
    }

    /** `handleGenerate`: the text and the file name of the download; the
        dialog closes. */
    method HandleGenerate(draws: seq<Draw>) returns (text: string, fileName: string)
      requires Valid() && |draws| == count && AllInRange(draws)
      modifies this
      ensures Valid() && !open && count == old(count) && includeHomonyms == old(includeHomonyms)
      ensures text == SampleCsv(draws, includeHomonyms)
      ensures fileName == SampleFileName(count)
      ensures ParseParticipants(text) == Success(FromRows(Generate(draws, includeHomonyms).rows))
    {
      text := GenerateSampleCsv(count, includeHomonyms, draws);
      SampleImports(draws, includeHomonyms);
      fileName := SampleFileName(count);
      open := false;
    }
  }
}
